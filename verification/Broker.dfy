/** The in-memory queue broker: one object, and the pure step each of its mutex-protected methods takes. */
module Broker {
  import opened Int64
  import opened Option
  import opened Decimal

  // An instant counts nanoseconds from Go's zero time; 0 is the zero time itself.
  const ZERO_TIME: int := 0

  datatype Message = Message(
    id: string, queue: string, key: string, attempts: int, value: string,
    reason: string, firstFailedAt: int)

  datatype Pending = Pending(msg: Message, visibleAt: int)

  datatype State = State(
    ready: map<string, seq<Pending>>,
    inflight: map<string, Pending>,
    dlq: map<string, seq<Message>>,
    maxAttempts: int,
    backoff: int64)

  function New(maxAttempts: int, backoff: int64): State {
    State(map[], map[], map[], maxAttempts, backoff)
  }

  // Go's map read: an absent queue reads as empty.
  function Queue<T>(m: map<string, seq<T>>, q: string): seq<T> {
    if q in m then m[q] else []
  }

  function Append<T>(m: map<string, seq<T>>, q: string, x: T): map<string, seq<T>> {
    m[q := Queue(m, q) + [x]]
  }

  function Without<T>(s: seq<T>, i: nat): seq<T>
    requires i < |s|
  {
    s[..i] + s[i + 1..]
  }

  function Stored(queue: string, msg: Message): Message {
    msg.(queue := queue, attempts := if msg.attempts == 0 then 1 else msg.attempts)
  }

  function PublishStep(b: State, queue: string, msg: Message): State {
    b.(ready := Append(b.ready, queue, Pending(Stored(queue, msg), ZERO_TIME)))
  }

  function Due(b: State, now: int): set<string> {
    set id | id in b.inflight && b.inflight[id].visibleAt <= now
  }

  function PromoteOne(b: State, id: string): State
    requires id in b.inflight
  {
    var p := b.inflight[id];
    b.(inflight := b.inflight - {id}, ready := Append(b.ready, p.msg.queue, p))
  }

  // The sweep over the parked messages, in the order in which the map walk meets those that are due.
  function Promote(b: State, ids: seq<string>): State {
    if ids == [] then b
    else
      var b' := Promote(b, ids[..|ids| - 1]);
      var id := ids[|ids| - 1];
      if id in b'.inflight then PromoteOne(b', id) else b'
  }

  ghost predicate Walk(ids: seq<string>, due: set<string>) {
    && (forall i, j :: 0 <= i < j < |ids| ==> ids[i] != ids[j])
    && (forall id :: id in due <==> id in ids)
  }

  function FirstVisible(q: seq<Pending>, now: int): (i: int)
    ensures -1 <= i < |q|
    ensures i >= 0 ==> q[i].visibleAt <= now && forall j :: 0 <= j < i ==> now < q[j].visibleAt
    ensures i < 0 ==> forall j :: 0 <= j < |q| ==> now < q[j].visibleAt
  {
    if q == [] then -1
    else if q[0].visibleAt <= now then 0
    else
      var i := FirstVisible(q[1..], now);
      if i < 0 then -1 else i + 1
  }

  function TakeStep(b: State, queue: string, now: int): (State, Option<Message>) {
    var q := Queue(b.ready, queue);
    var i := FirstVisible(q, now);
    if i < 0 then (b, None) else (b.(ready := b.ready[queue := Without(q, i)]), Some(q[i].msg))
  }

  function NextStep(b: State, queue: string, now: int, ids: seq<string>): (State, Option<Message>) {
    TakeStep(Promote(b, ids), queue, now)
  }

  function Stamp(msg: Message, now: int): Message {
    if msg.firstFailedAt == ZERO_TIME then msg.(firstFailedAt := now) else msg
  }

  function DeadStep(b: State, queue: string, msg: Message, reason: string, now: int): State {
    b.(dlq := Append(b.dlq, queue, Stamp(msg, now).(reason := reason)))
  }

  // Go's << on an int64 duration.
  function ShiftLeft(x: int64, n: nat): int64 { Wrap(x * Pow2(n)) }

  // redeliver shifts by Attempts - 2 after counting the attempt; a negative shift count panics.
  predicate ShiftPanics(msg: Message) { msg.attempts + 1 - 2 < 0 }

  function Parked(b: State, queue: string, msg: Message, reason: string, t1: int, t2: int): Pending
    requires !ShiftPanics(msg)
  {
    var m := Stamp(msg, t1).(queue := queue, attempts := msg.attempts + 1, reason := reason);
    Pending(m, t2 + ShiftLeft(b.backoff, m.attempts - 2))
  }

  // The clock is read for the stamp and again for the deadline.
  function RedeliverStep(b: State, queue: string, msg: Message, reason: string, t1: int, t2: int): State
    requires !ShiftPanics(msg)
  {
    b.(inflight := b.inflight[msg.id := Parked(b, queue, msg, reason, t1, t2)])
  }

  // What a handler call comes to, after handle's panic recovery.
  datatype Outcome = Success | TerminalError(reason: string) | Retryable(reason: string)

  datatype Called = Returned(outcome: Outcome) | Panicked(value: string)

  function Handle(c: Called): Outcome {
    match c
    case Returned(o) => o
    case Panicked(v) => TerminalError("terminal: panic in handler: " + v)
  }

  // The dead-letter reason of a message that has used up its attempts.
  function Exhausted(maxAttempts: int, reason: string): string {
    "max attempts (" + Print(maxAttempts) + ") reached: " + reason
  }

  datatype Verdict = Ack | Bury(reason: string) | Retry(reason: string)

  // Consume's policy.
  function Judge(maxAttempts: int, msg: Message, o: Outcome): Verdict {
    match o
    case Success => Ack
    case TerminalError(reason) => Bury(reason)
    case Retryable(reason) => if msg.attempts >= maxAttempts then Bury(Exhausted(maxAttempts, reason)) else Retry(reason)
  }

  // ---- The object ----

  // What the outside world answers during one Consume: the context, the clock, and the handler.
  datatype World = World(cancelled: nat -> bool, clock: nat -> int, handler: (nat, Message) -> Called)

  datatype Exit = Drained | Cancelled | Crashed

  class Broker {
    var ready: map<string, seq<Pending>>
    var inflight: map<string, Pending>
    var dlq: map<string, seq<Message>>
    const maxAttempts: int
    const backoff: int64

    ghost function View(): State
      reads this
    {
      State(ready, inflight, dlq, maxAttempts, backoff)
    }

    constructor (maxAttempts: int, backoff: int64)
      ensures View() == New(maxAttempts, backoff)
    {
      ready, inflight, dlq := map[], map[], map[];
      this.maxAttempts, this.backoff := maxAttempts, backoff;
    }

    method Publish(queue: string, msg: Message)
      modifies this
      ensures View() == PublishStep(old(View()), queue, msg)
      ensures inflight == old(inflight) && dlq == old(dlq)
      ensures var m := msg.(queue := queue, attempts := if msg.attempts == 0 then 1 else msg.attempts);
              ready == old(ready)[queue := Queue(old(ready), queue) + [Pending(m, ZERO_TIME)]]
    {
      var m := msg.(queue := queue);
      if m.attempts == 0 {
        m := m.(attempts := 1);
      }
      ready := Append(ready, queue, Pending(m, ZERO_TIME));
    }

    // next's first half; ids is the order in which the map walk met the parked messages that were due.
    method PromoteDue(now: int) returns (ghost ids: seq<string>)
      modifies this`ready, this`inflight
      ensures Walk(ids, Due(old(View()), now))
      ensures View() == Promote(old(View()), ids)
    {
      ids := [];
      var todo := inflight.Keys;
      ghost var b := View();
      while todo != {}
        invariant todo <= inflight.Keys && View() == Promote(b, ids)
        invariant inflight == b.inflight - (set id | id in ids)
        invariant forall id :: id in ids ==> id in Due(b, now) && id !in todo
        invariant forall id :: id in Due(b, now) ==> id in ids || id in todo
        invariant forall i, j :: 0 <= i < j < |ids| ==> ids[i] != ids[j]
      {
        var id :| id in todo;
        todo := todo - {id};
        var p := inflight[id];
        if p.visibleAt <= now {
          inflight := inflight - {id};
          ready := Append(ready, p.msg.queue, p);
          assert (ids + [id])[..|ids|] == ids;
          ids := ids + [id];
        }
      }
    }

    // next's second half: the first visible message of the queue leaves it.
    method TakeVisible(queue: string, now: int) returns (r: Option<Message>)
      modifies this`ready
      ensures (View(), r) == TakeStep(old(View()), queue, now)
    {
      var q := Queue(ready, queue);
      var i := 0;
      while i < |q|
        invariant 0 <= i <= |q|
        invariant forall j :: 0 <= j < i ==> now < q[j].visibleAt
      {
        var p := q[i];
        if p.visibleAt <= now {
          ready := ready[queue := Without(q, i)];
          return Some(p.msg);
        }
        i := i + 1;
      }
      return None;
    }

    method Next(queue: string, now: int) returns (r: Option<Message>, ghost ids: seq<string>)
      modifies this
      ensures Walk(ids, Due(old(View()), now))
      ensures (View(), r) == NextStep(old(View()), queue, now, ids)
    {
      ids := PromoteDue(now);
      r := TakeVisible(queue, now);
    }

    method Dead(queue: string, msg: Message, reason: string, now: int)
      modifies this
      ensures View() == DeadStep(old(View()), queue, msg, reason, now)
      ensures ready == old(ready) && inflight == old(inflight)
      ensures var failedAt := if msg.firstFailedAt == ZERO_TIME then now else msg.firstFailedAt;
              dlq == old(dlq)[queue := Queue(old(dlq), queue) + [msg.(reason := reason, firstFailedAt := failedAt)]]
    {
      var m := msg.(reason := reason);
      if m.firstFailedAt == ZERO_TIME {
        m := m.(firstFailedAt := now);
      }
      dlq := Append(dlq, queue, m);
    }

    // crashed: the negative shift count panics, outside the handler's recovery.
    method Redeliver(queue: string, msg: Message, reason: string, t1: int, t2: int) returns (crashed: bool)
      modifies this
      ensures crashed <==> ShiftPanics(msg)
      ensures View() == if crashed then old(View()) else RedeliverStep(old(View()), queue, msg, reason, t1, t2)
      ensures ready == old(ready) && dlq == old(dlq)
      ensures crashed <==> msg.attempts < 1
      ensures !crashed ==>
        var failedAt := if msg.firstFailedAt == ZERO_TIME then t1 else msg.firstFailedAt;
        var m := msg.(queue := queue, attempts := msg.attempts + 1, reason := reason, firstFailedAt := failedAt);
        inflight == old(inflight)[msg.id := Pending(m, t2 + Wrap(backoff * Pow2(msg.attempts - 1)))]
    {
      var m := msg;
      if m.firstFailedAt == ZERO_TIME {
        m := m.(firstFailedAt := t1);
      }
      m := m.(queue := queue);
      m := m.(attempts := m.attempts + 1);
      m := m.(reason := reason);
      if m.attempts - 2 < 0 {
        return true;
      }
      var delay := ShiftLeft(backoff, m.attempts - 2);
      inflight := inflight[msg.id := Pending(m, t2 + delay)];
      return false;
    }
  }
}
