/** When the broker can lose a message: redeliver parks under the ID alone, so two copies of an ID may collide. */
module BrokerLoss {
  import opened Int64
  import opened Option
  import opened B = Broker
  import opened BrokerRuns

  // ---- Where live messages are ----

  datatype Place = InReady(queue: string, i: nat) | InHand(c: nat) | InFlight(id: string)

  predicate At(s: System, p: Place) {
    match p
    case InReady(q, i) => i < |Queue(s.b.ready, q)|
    case InHand(c) => c < |s.hands| && s.hands[c].Some?
    case InFlight(id) => id in s.b.inflight
  }

  function MsgAt(s: System, p: Place): Message
    requires At(s, p)
  {
    match p
    case InReady(q, i) => Queue(s.b.ready, q)[i].msg
    case InHand(c) => s.hands[c].value.msg
    case InFlight(id) => s.b.inflight[id].msg
  }

  // A retryable failure of m would park it: it is below the cap, and its shift count does not panic.
  predicate Redeliverable(s: System, m: Message) { 1 <= m.attempts < s.b.maxAttempts }

  // q can still be parked, and by then p can be parked under the same ID: because p can still be parked as well, or
  // because it is, and q is in a hand or can be polled before p comes due.
  predicate Clash(s: System, p: Place, q: Place)
    requires At(s, p) && At(s, q)
  {
    && p != q && MsgAt(s, p).id == MsgAt(s, q).id && Redeliverable(s, MsgAt(s, q))
    && (|| Redeliverable(s, MsgAt(s, p))
        || (&& p.InFlight?
            && (|| q.InHand?
                || (q.InReady? && Queue(s.b.ready, q.queue)[q.i].visibleAt < s.b.inflight[p.id].visibleAt))))
  }

  ghost predicate Clashes(s: System) { exists p, q :: At(s, p) && At(s, q) && Clash(s, p, q) }

  ghost predicate PublishFree(ls: seq<Label>) { forall i :: 0 <= i < |ls| ==> !ls[i].Publish? }

  ghost predicate CanLose(s: System) { exists ls :: PublishFree(ls) && |Run(s, ls).lost| > |s.lost| }

  // ---- Without a clash nothing is lost ----

  lemma PromoteOneNoClash(s: System, id: string)
    requires Shaped(s) && !Clashes(s) && id in s.b.inflight
    ensures !Clashes(s.(b := PromoteOne(s.b, id)))
  {
    var s' := s.(b := PromoteOne(s.b, id));
    var moved := InReady(s.b.inflight[id].msg.queue, |Queue(s.b.ready, s.b.inflight[id].msg.queue)|);
    forall p, q | At(s', p) && At(s', q) && Clash(s', p, q) ensures false {
      var p0, q0 := if p == moved then InFlight(id) else p, if q == moved then InFlight(id) else q;
      assert At(s, p0) && At(s, q0) && Clash(s, p0, q0);
    }
  }

  lemma {:induction false} PromoteNoClash(s: System, ids: seq<string>)
    requires Shaped(s) && !Clashes(s)
    ensures !Clashes(s.(b := Promote(s.b, ids)))
  {
    if ids == [] {
      assert s.(b := Promote(s.b, ids)) == s;
    } else {
      var s' := s.(b := Promote(s.b, ids[..|ids| - 1]));
      PromoteNoClash(s, ids[..|ids| - 1]);
      PromoteShaped(s, ids[..|ids| - 1]);
      if ids[|ids| - 1] in s'.b.inflight {
        PromoteOneNoClash(s', ids[|ids| - 1]);
      }
    }
  }

  function BeforeTake(p: Place, c: nat, queue: string, i: nat): Place {
    match p
    case InReady(q, j) => if q == queue && j >= i then InReady(q, j + 1) else p
    case InHand(d) => if d == c then InReady(queue, i) else p
    case InFlight(_) => p
  }

  lemma BeforeTakeIs(s: System, c: nat, queue: string, now: int, p: Place)
    requires c < |s.hands| && FirstVisible(Queue(s.b.ready, queue), now) >= 0 && At(TakeSys(s, c, queue, now), p)
    ensures var s' := TakeSys(s, c, queue, now);
            var p0 := BeforeTake(p, c, queue, FirstVisible(Queue(s.b.ready, queue), now));
            && At(s, p0) && MsgAt(s, p0) == MsgAt(s', p)
            && (p.InReady? ==> Queue(s.b.ready, p0.queue)[p0.i] == Queue(s'.b.ready, p.queue)[p.i])
  {
    var q := Queue(s.b.ready, queue);
    var i := FirstVisible(q, now);
    assert Queue(TakeSys(s, c, queue, now).b.ready, queue) == Without(q, i);
    if p.InReady? && p.queue == queue {
      assert Without(q, i)[p.i] == if p.i < i then q[p.i] else q[p.i + 1];
    }
  }

  // What is taken was visible before anything still parked comes due.
  lemma TakeNoClash(s: System, c: nat, queue: string, now: int)
    requires Shaped(s) && !Clashes(s) && c < |s.hands| && s.hands[c].None?
    requires forall id :: id in s.b.inflight ==> now < s.b.inflight[id].visibleAt
    ensures !Clashes(TakeSys(s, c, queue, now))
  {
    var s' := TakeSys(s, c, queue, now);
    var i := FirstVisible(Queue(s.b.ready, queue), now);
    if i >= 0 {
      forall p, q | At(s', p) && At(s', q) && Clash(s', p, q) ensures false {
        var p0, q0 := BeforeTake(p, c, queue, i), BeforeTake(q, c, queue, i);
        BeforeTakeIs(s, c, queue, now, p);
        BeforeTakeIs(s, c, queue, now, q);
        assert At(s, p0) && At(s, q0) && Clash(s, p0, q0);
      }
    }
  }

  // A message leaves a hand for good.
  lemma DropNoClash(s: System, s': System, c: nat)
    requires !Clashes(s) && c < |s.hands| && s'.hands == s.hands[c := None]
    requires s'.b.ready == s.b.ready && s'.b.inflight == s.b.inflight && s'.b.maxAttempts == s.b.maxAttempts
    ensures !Clashes(s')
  {
    forall p, q | At(s', p) && At(s', q) && Clash(s', p, q) ensures false {
      assert At(s, p) && At(s, q) && Clash(s, p, q);
    }
  }

  // A message is parked: nothing was parked under its ID, and no other copy of it can be any more.
  lemma ParkNoClash(s: System, c: nat, reason: string, t1: int, t2: int)
    requires Shaped(s) && !Clashes(s) && c < |s.hands| && s.hands[c].Some? && Redeliverable(s, s.hands[c].value.msg)
    ensures !Clashes(RetrySys(s, c, reason, t1, t2)) && RetrySys(s, c, reason, t1, t2).lost == s.lost
  {
    var s' := RetrySys(s, c, reason, t1, t2);
    var parked := InFlight(s.hands[c].value.msg.id);
    if At(s, parked) {
      assert Clash(s, parked, InHand(c));
    }
    forall p, q | At(s', p) && At(s', q) && Clash(s', p, q) ensures false {
      if p == parked || q == parked {
        var other := if p == parked then q else p;
        assert At(s, other) && At(s, InHand(c)) && Clash(s, other, InHand(c));
      } else {
        assert At(s, p) && At(s, q) && Clash(s, p, q);
      }
    }
  }

  // A crash moves nothing.
  lemma SamePlacesNoClash(s: System, s': System)
    requires !Clashes(s) && s'.hands == s.hands && s'.b == s.b
    ensures !Clashes(s')
  {
    forall p, q | At(s', p) && At(s', q) && Clash(s', p, q) ensures false {
      assert At(s, p) && At(s, q) && Clash(s, p, q);
    }
  }

  lemma SettleNoClash(s: System, c: nat, o: Outcome, t1: int, t2: int)
    requires Shaped(s) && !Clashes(s) && c < |s.hands| && s.hands[c].Some?
    ensures !Clashes(FinishSys(s, c, o, t1, t2)) && FinishSys(s, c, o, t1, t2).lost == s.lost
  {
    match Judge(s.b.maxAttempts, s.hands[c].value.msg, o)
    case Retry(reason) =>
      if Redeliverable(s, s.hands[c].value.msg) {
        ParkNoClash(s, c, reason, t1, t2);
      } else {
        SamePlacesNoClash(s, FinishSys(s, c, o, t1, t2));
      }
    case _ => DropNoClash(s, FinishSys(s, c, o, t1, t2), c);
  }

  lemma StepNoClash(s: System, l: Label)
    requires Shaped(s) && !Clashes(s) && !l.Publish?
    ensures !Clashes(Step(s, l)) && Step(s, l).lost == s.lost
  {
    if Enabled(s, l) {
      match l
      case Poll(c, q, now, ids) =>
        PromoteNoClash(s, ids);
        PromoteShaped(s, ids);
        PromoteLeaves(s.b, ids);
        TakeNoClash(s.(b := Promote(s.b, ids)), c, q, now);
      case Finish(c, o, t1, t2) => SettleNoClash(s, c, o, t1, t2);
    }
  }

  lemma {:induction false} RunNoClash(s: System, ls: seq<Label>)
    requires Shaped(s) && !Clashes(s) && PublishFree(ls)
    ensures Shaped(Run(s, ls)) && !Clashes(Run(s, ls)) && Run(s, ls).lost == s.lost
  {
    if ls == [] {
    } else {
      RunNoClash(s, ls[..|ls| - 1]);
      StepShaped(Run(s, ls[..|ls| - 1]), ls[|ls| - 1]);
      StepNoClash(Run(s, ls[..|ls| - 1]), ls[|ls| - 1]);
    }
  }

  // ---- With a clash something can be lost ----

  ghost predicate Reaches(s: System, s': System) { exists ls :: PublishFree(ls) && Run(s, ls) == s' }

  lemma {:induction false} RunSplit(s: System, a: seq<Label>, b: seq<Label>)
    ensures Run(s, a + b) == Run(Run(s, a), b)
  {
    if b == [] {
      assert a + b == a;
    } else {
      assert (a + b)[..|a + b| - 1] == a + b[..|b| - 1];
      RunSplit(s, a, b[..|b| - 1]);
    }
  }

  lemma ReachesStep(s: System, l: Label)
    requires !l.Publish?
    ensures Reaches(s, Step(s, l))
  {
    assert [l][..0] == [];
    assert PublishFree([l]) && Run(s, [l]) == Step(s, l);
  }

  lemma ReachesOn(s: System, s': System, s'': System)
    requires Reaches(s, s') && Reaches(s', s'')
    ensures Reaches(s, s'')
  {
    var a :| PublishFree(a) && Run(s, a) == s';
    var b :| PublishFree(b) && Run(s', b) == s'';
    RunSplit(s, a, b);
    assert PublishFree(a + b);
  }

  lemma LosesLater(s: System, s': System)
    requires Reaches(s, s') && CanLose(s') && s'.lost == s.lost
    ensures CanLose(s)
  {
    var ls :| PublishFree(ls) && |Run(s', ls).lost| > |s'.lost|;
    assert Reaches(s', Run(s', ls));
    ReachesOn(s, s', Run(s', ls));
    var all :| PublishFree(all) && Run(s, all) == Run(s', ls);
  }

  // A message in a hand fails while another copy of its ID is parked.
  lemma ParkedAndHeldLose(s: System, c: nat)
    requires !s.crashed && c < |s.hands| && s.hands[c].Some? && Redeliverable(s, s.hands[c].value.msg)
    requires s.hands[c].value.msg.id in s.b.inflight
    ensures CanLose(s)
  {
    var fail := Finish(c, Retryable(""), 0, 0);
    assert [fail][..0] == [];
    assert PublishFree([fail]) && Run(s, [fail]) == Step(s, fail);
  }

  // Two held messages that share an ID and can both be redelivered: when both fail, whatever the queues, the clock
  // and the reasons, the one that fails first is lost.
  lemma TwoHeldLose(s: System, c: nat, d: nat, r1: string, t1: int, t2: int, r2: string, t3: int, t4: int)
    requires !s.crashed && c != d && c < |s.hands| && d < |s.hands| && s.hands[c].Some? && s.hands[d].Some?
    requires s.hands[c].value.msg.id == s.hands[d].value.msg.id
    requires Redeliverable(s, s.hands[c].value.msg) && Redeliverable(s, s.hands[d].value.msg)
    ensures var s1 := Step(s, Finish(c, Retryable(r1), t1, t2));
            var s2 := Step(s1, Finish(d, Retryable(r2), t3, t4));
            && |s1.lost| >= |s.lost|
            && s2.lost == s1.lost + [Parked(s.b, s.hands[c].value.queue, s.hands[c].value.msg, r1, t1, t2).msg]
  {
  }

  lemma HeldCanLose(s: System, c: nat, d: nat)
    requires !s.crashed && c != d && c < |s.hands| && d < |s.hands| && s.hands[c].Some? && s.hands[d].Some?
    requires s.hands[c].value.msg.id == s.hands[d].value.msg.id
    requires Redeliverable(s, s.hands[c].value.msg) && Redeliverable(s, s.hands[d].value.msg)
    ensures CanLose(s)
  {
    TwoHeldLose(s, c, d, "", 0, 0, "", 0, 0);
    var a, b := Finish(c, Retryable(""), 0, 0), Finish(d, Retryable(""), 0, 0);
    assert [a, b][..1] == [a] && [a][..0] == [];
    assert Run(s, [a]) == Step(s, a);
    assert Run(s, [a, b]) == Step(Step(s, a), b);
    assert PublishFree([a, b]);
  }

  // x waits in queue r, and in `queue` only behind position i.
  ghost predicate Behind(s: System, queue: string, i: int, r: string, x: Pending) {
    exists j :: 0 <= j < |Queue(s.b.ready, r)| && Queue(s.b.ready, r)[j] == x && (r == queue ==> j > i)
  }

  // What was parked is still parked, or came due and waits behind position i.
  ghost predicate Accounted(s: System, s': System, queue: string, i: int, now: int) {
    forall id :: id in s.b.inflight ==>
      var x := s.b.inflight[id];
      if now < x.visibleAt then id in s'.b.inflight && s'.b.inflight[id] == x
      else Behind(s', queue, i, x.msg.queue, x)
  }

  ghost predicate Kept(s: System, s': System, queue: string, i: int, i': int) {
    forall r, x :: Behind(s, queue, i, r, x) ==> Behind(s', queue, i', r, x)
  }

  lemma {:induction false} EnumerateSet(due: set<string>) returns (ids: seq<string>)
    ensures Walk(ids, due)
    decreases due
  {
    if due == {} {
      ids := [];
    } else {
      var id :| id in due;
      var rest := EnumerateSet(due - {id});
      ids := rest + [id];
    }
  }

  // One promotion: what it promotes, and what was at the back of a queue already.
  lemma GrowsOn(b: State, id: string, x: Pending, r: string, n: nat)
    requires n <= |Queue(b.ready, r)|
    requires x in Queue(b.ready, r)[n..] || (id in b.inflight && b.inflight[id] == x && x.msg.queue == r)
    ensures id in b.inflight ==> x in Queue(PromoteOne(b, id).ready, r)[n..]
  {
    if id in b.inflight {
      var q, q' := Queue(b.ready, r), Queue(PromoteOne(b, id).ready, r);
      if b.inflight[id].msg.queue == r {
        assert q'[n..] == q[n..] + [b.inflight[id]];
      }
    }
  }

  // Queues only grow at the back, and the promoted go there.
  lemma {:induction false} PromoteGrows(b: State, ids: seq<string>)
    requires forall i, j :: 0 <= i < j < |ids| ==> ids[i] != ids[j]
    ensures forall r :: Queue(b.ready, r) <= Queue(Promote(b, ids).ready, r)
    ensures forall id :: id in ids && id in b.inflight ==>
      var r := b.inflight[id].msg.queue; b.inflight[id] in Queue(Promote(b, ids).ready, r)[|Queue(b.ready, r)|..]
  {
    if ids == [] {
    } else {
      var init, last := ids[..|ids| - 1], ids[|ids| - 1];
      PromoteGrows(b, init);
      PromoteLeaves(b, init);
      assert ids == init + [last];
      forall id | id in ids && id in b.inflight
        ensures var r := b.inflight[id].msg.queue; b.inflight[id] in Queue(Promote(b, ids).ready, r)[|Queue(b.ready, r)|..]
      {
        var r := b.inflight[id].msg.queue;
        GrowsOn(Promote(b, init), last, b.inflight[id], r, |Queue(b.ready, r)|);
      }
    }
  }

  lemma PromoteKept(s: System, ids: seq<string>, queue: string, i: nat, now: int)
    requires Walk(ids, Due(s.b, now)) && i < |Queue(s.b.ready, queue)|
    ensures var s' := s.(b := Promote(s.b, ids));
            && Kept(s, s', queue, i, i) && Accounted(s, s', queue, i, now)
            && Queue(s.b.ready, queue) <= Queue(s'.b.ready, queue)
  {
    var s' := s.(b := Promote(s.b, ids));
    PromoteGrows(s.b, ids);
    PromoteLeaves(s.b, ids);
    forall r, x | Behind(s, queue, i, r, x) ensures Behind(s', queue, i, r, x) {
      var j :| 0 <= j < |Queue(s.b.ready, r)| && Queue(s.b.ready, r)[j] == x && (r == queue ==> j > i);
      assert Queue(s'.b.ready, r)[j] == x;
    }
    forall id | id in s.b.inflight && s.b.inflight[id].visibleAt <= now
      ensures Behind(s', queue, i, s.b.inflight[id].msg.queue, s.b.inflight[id])
    {
      var x := s.b.inflight[id];
      var n := |Queue(s.b.ready, x.msg.queue)|;
      assert id in Due(s.b, now);
      var j :| 0 <= j < |Queue(s'.b.ready, x.msg.queue)[n..]| && Queue(s'.b.ready, x.msg.queue)[n..][j] == x;
      assert Queue(s'.b.ready, x.msg.queue)[n + j] == x;
    }
  }

  // Taking the message at f <= i: everything behind i moves up behind i - 1.
  lemma TakeKept(s: System, c: nat, queue: string, i: nat, now: int)
    requires c < |s.hands| && i < |Queue(s.b.ready, queue)| && 0 <= FirstVisible(Queue(s.b.ready, queue), now) <= i
    ensures Kept(s, TakeSys(s, c, queue, now), queue, i, i - 1)
  {
    var s' := TakeSys(s, c, queue, now);
    forall r, x | Behind(s, queue, i, r, x) ensures Behind(s', queue, i - 1, r, x) {
      var j :| 0 <= j < |Queue(s.b.ready, r)| && Queue(s.b.ready, r)[j] == x && (r == queue ==> j > i);
      var j' := if r == queue then j - 1 else j;
      assert Queue(s'.b.ready, r)[j'] == x;
    }
  }

  lemma AccountedOn(s: System, s': System, s'': System, queue: string, i: int, i': int, now: int)
    requires Accounted(s, s', queue, i, now) && Kept(s', s'', queue, i, i') && s''.b.inflight == s'.b.inflight
    ensures Accounted(s, s'', queue, i', now)
  {
  }

  // One poll, at an instant when the message at i is visible: it takes that message or one before it.
  lemma PollTowards(s: System, c: nat, queue: string, i: nat, now: int) returns (s': System, f: nat)
    requires !s.crashed && c < |s.hands| && s.hands[c].None?
    requires i < |Queue(s.b.ready, queue)| && Queue(s.b.ready, queue)[i].visibleAt <= now
    ensures Reaches(s, s') && !s'.crashed && s'.lost == s.lost && s'.b.maxAttempts == s.b.maxAttempts && f <= i
    ensures s'.hands == s.hands[c := Some(Hand(queue, Queue(s.b.ready, queue)[f].msg))]
    ensures Kept(s, s', queue, i, i - 1) && Accounted(s, s', queue, i - 1, now)
    ensures f < i ==> i - 1 < |Queue(s'.b.ready, queue)| && Queue(s'.b.ready, queue)[i - 1] == Queue(s.b.ready, queue)[i]
  {
    var ids := EnumerateSet(Due(s.b, now));
    PromoteKept(s, ids, queue, i, now);
    PromoteFrame(s.b, ids);
    var m := s.(b := Promote(s.b, ids));
    assert Queue(m.b.ready, queue)[i] == Queue(s.b.ready, queue)[i];
    f := FirstVisible(Queue(m.b.ready, queue), now);
    TakeKept(m, c, queue, i, now);
    s' := TakeSys(m, c, queue, now);
    AccountedOn(s, m, s', queue, i, i - 1, now);
    ReachesStep(s, Poll(c, queue, now, ids));
  }

  lemma Weaken(s: System, s': System, queue: string, i: nat, now: int)
    requires Kept(s, s', queue, i, i - 1) && Accounted(s, s', queue, i - 1, now)
    ensures Kept(s, s', queue, i, -1) && Accounted(s, s', queue, -1, now)
  {
    forall r, x | Behind(s', queue, i - 1, r, x) ensures Behind(s', queue, -1, r, x) {
    }
  }

  lemma FetchedOn(s: System, s1: System, s2: System, s': System, queue: string, i: nat, now: int)
    requires s2.b == s1.b && Kept(s, s1, queue, i, i - 1) && Accounted(s, s1, queue, i - 1, now)
    requires Kept(s2, s', queue, i - 1, -1) && Accounted(s2, s', queue, -1, now)
    ensures Kept(s, s', queue, i, -1) && Accounted(s, s', queue, -1, now)
  {
    forall r, x | Behind(s1, queue, i - 1, r, x) ensures Behind(s', queue, -1, r, x) {
      assert Behind(s2, queue, i - 1, r, x);
    }
  }

  // An empty hand can be given any message of a ready queue, at any instant when that message is visible: poll and
  // acknowledge those before it.
  lemma {:induction false} Fetch(s: System, c: nat, queue: string, i: nat, now: int) returns (s': System)
    requires !s.crashed && c < |s.hands| && s.hands[c].None?
    requires i < |Queue(s.b.ready, queue)| && Queue(s.b.ready, queue)[i].visibleAt <= now
    ensures Reaches(s, s') && !s'.crashed && s'.lost == s.lost && s'.b.maxAttempts == s.b.maxAttempts
    ensures s'.hands == s.hands[c := Some(Hand(queue, Queue(s.b.ready, queue)[i].msg))]
    ensures Kept(s, s', queue, i, -1) && Accounted(s, s', queue, -1, now)
    decreases i
  {
    var s1, f := PollTowards(s, c, queue, i, now);
    if f == i {
      s' := s1;
      Weaken(s, s1, queue, i, now);
    } else {
      var s2 := Step(s1, Finish(c, Success, 0, 0));
      ReachesStep(s1, Finish(c, Success, 0, 0));
      ReachesOn(s, s1, s2);
      s' := Fetch(s2, c, queue, i - 1, now);
      ReachesOn(s, s2, s');
      assert s2.b == s1.b;
      FetchedOn(s, s1, s2, s', queue, i, now);
    }
  }

  // Acknowledging whatever a hand holds empties it.
  lemma EmptyHand(s: System, c: nat) returns (s': System)
    requires !s.crashed && c < |s.hands|
    ensures Reaches(s, s') && !s'.crashed && s'.lost == s.lost && s'.b == s.b && s'.hands == s.hands[c := None]
  {
    s' := Step(s, Finish(c, Success, 0, 0));
    ReachesStep(s, Finish(c, Success, 0, 0));
  }

  // The held copy fails and is parked until after the one in the queue is visible; that one is polled, and fails too.
  lemma HeldAndReadyLose(s: System, r: string, i: nat, c: nat)
    requires !s.crashed && At(s, InReady(r, i)) && At(s, InHand(c)) && Clash(s, InReady(r, i), InHand(c))
    ensures CanLose(s)
  {
    var m, now := s.hands[c].value.msg, Queue(s.b.ready, r)[i].visibleAt;
    var t2 := now + 1 - ShiftLeft(s.b.backoff, m.attempts - 1);
    var s1 := Step(s, Finish(c, Retryable(""), 0, t2));
    ReachesStep(s, Finish(c, Retryable(""), 0, t2));
    if m.id in s.b.inflight {
      ParkedAndHeldLose(s, c);
    } else {
      assert m.id in s1.b.inflight && s1.b.inflight[m.id].visibleAt == now + 1;
      var s2 := Fetch(s1, c, r, i, now);
      ReachesOn(s, s1, s2);
      ParkedAndHeldLose(s2, c);
      LosesLater(s, s2);
    }
  }

  // One copy is in a hand, the other one anywhere.
  lemma HeldLoses(s: System, p: Place, c: nat)
    requires Shaped(s) && !s.crashed && At(s, p) && At(s, InHand(c)) && Clash(s, p, InHand(c))
    ensures CanLose(s)
  {
    match p
    case InFlight(id) => ParkedAndHeldLose(s, c);
    case InHand(d) => HeldCanLose(s, d, c);
    case InReady(r, i) => HeldAndReadyLose(s, r, i, c);
  }

  lemma {:induction false} RunShaped(s: System, ls: seq<Label>)
    requires Shaped(s)
    ensures Shaped(Run(s, ls))
  {
    if ls == [] {
    } else {
      RunShaped(s, ls[..|ls| - 1]);
      StepShaped(Run(s, ls[..|ls| - 1]), ls[|ls| - 1]);
    }
  }

  lemma ReachesShaped(s: System, s': System)
    requires Shaped(s) && Reaches(s, s')
    ensures Shaped(s')
  {
    var ls :| PublishFree(ls) && Run(s, ls) == s';
    RunShaped(s, ls);
  }

  // The copy that can be polled first goes into a hand.
  lemma ReadyLoses(s: System, p: Place, queue: string, i: nat)
    requires Shaped(s) && !s.crashed && |s.hands| >= 1
    requires At(s, p) && At(s, InReady(queue, i)) && Clash(s, p, InReady(queue, i))
    requires p.InFlight? || (p.InReady? && (p.queue == queue ==> p.i > i))
    ensures CanLose(s)
  {
    var now := Queue(s.b.ready, queue)[i].visibleAt;
    var s1 := EmptyHand(s, 0);
    var s2 := Fetch(s1, 0, queue, i, now);
    ReachesOn(s, s1, s2);
    if p.InFlight? && now < s.b.inflight[p.id].visibleAt {
      ParkedAndHeldLose(s2, 0);
    } else {
      var x := if p.InFlight? then s.b.inflight[p.id] else Queue(s.b.ready, p.queue)[p.i];
      var r := if p.InFlight? then x.msg.queue else p.queue;
      if p.InReady? {
        assert Behind(s1, queue, i, r, x);
      }
      assert Behind(s2, queue, -1, r, x);
      var j :| 0 <= j < |Queue(s2.b.ready, r)| && Queue(s2.b.ready, r)[j] == x;
      ReachesShaped(s, s2);
      HeldLoses(s2, InReady(r, j), 0);
    }
    LosesLater(s, s2);
  }

  lemma ClashLoses(s: System, p: Place, q: Place)
    requires Shaped(s) && !s.crashed && |s.hands| >= 1 && At(s, p) && At(s, q) && Clash(s, p, q)
    ensures CanLose(s)
  {
    if q.InHand? {
      HeldLoses(s, p, q.c);
    } else if p.InHand? {
      HeldLoses(s, q, p.c);
    } else if q.InReady? && (p.InFlight? || p.queue != q.queue || p.i > q.i) {
      ReadyLoses(s, p, q.queue, q.i);
    } else {
      ReadyLoses(s, q, p.queue, p.i);
    }
  }

  // From any state that a run can be in, with any number of consumers: some continuation in which nothing is published
  // loses a message if and only if two live copies clash.
  lemma LossIff(s: System)
    requires Shaped(s) && !s.crashed && |s.hands| >= 1
    ensures CanLose(s) <==> Clashes(s)
  {
    if Clashes(s) {
      var p, q :| At(s, p) && At(s, q) && Clash(s, p, q);
      ClashLoses(s, p, q);
    } else {
      forall ls | PublishFree(ls) ensures Run(s, ls).lost == s.lost {
        RunNoClash(s, ls);
      }
    }
  }
}
