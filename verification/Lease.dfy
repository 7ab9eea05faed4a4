/** Leases with fencing tokens: the coordinator, the guarded storage, and every run of the two together. */
module Lease {
  import opened Int64
  import opened Option

  datatype Token = Token(number: int64, holder: string)

  datatype Coord = Coord(next: int64, ttl: int64, active: map<string, int64>, tokens: map<string, int64>)

  predicate Expired(c: Coord, holder: string, now: int64) {
    holder in c.active && c.active[holder] <= now
  }

  function Evict(c: Coord, now: int64): Coord {
    c.(active := map h | h in c.active && !Expired(c, h, now) :: c.active[h],
       tokens := map h | h in c.tokens && !Expired(c, h, now) :: c.tokens[h])
  }

  function Granted(c: Coord, holder: string): Token {
    Token(Wrap(c.next + 1), holder)
  }

  function AcquireStep(c: Coord, holder: string, now: int64): (Coord, Option<Token>) {
    var e := Evict(c, now);
    if e.active != map[] then (e, None)
    else
      var t := Granted(c, holder);
      (e.(next := t.number,
          active := e.active[holder := Wrap(now + c.ttl)],
          tokens := e.tokens[holder := t.number]),
       Some(t))
  }

  // The clock is read twice: once to check the expiry and once to extend it.
  function RenewStep(c: Coord, holder: string, t1: int64, t2: int64): (Coord, bool) {
    if holder !in c.active || c.active[holder] <= t1 then
      (c.(active := c.active - {holder}, tokens := c.tokens - {holder}), false)
    else
      (c.(active := c.active[holder := Wrap(t2 + c.ttl)]), true)
  }

  lemma EvictsAllIff(c: Coord, now: int64)
    ensures Evict(c, now).active == map[] <==> forall h :: h in c.active ==> c.active[h] <= now
  {
    if h :| h in c.active && now < c.active[h] {
      assert h in Evict(c, now).active;
    }
  }

  // The eviction loop part-way: the holders in todo have not been looked at yet.
  ghost function Sweep(c: Coord, todo: set<string>, now: int64): Coord {
    c.(active := map h | h in c.active && (h in todo || !Expired(c, h, now)) :: c.active[h],
       tokens := map h | h in c.tokens && (h in todo || !Expired(c, h, now)) :: c.tokens[h])
  }

  lemma SweepEnds(c: Coord, now: int64)
    ensures Sweep(c, c.active.Keys, now) == c && Sweep(c, {}, now) == Evict(c, now)
  {
  }

  lemma SweepOne(c: Coord, todo: set<string>, h: string, now: int64)
    requires h in todo && todo <= c.active.Keys
    ensures var s, s' := Sweep(c, todo, now), Sweep(c, todo - {h}, now);
            && h in s.active && s.active[h] == c.active[h]
            && s'.active == (if c.active[h] <= now then s.active - {h} else s.active)
            && s'.tokens == (if c.active[h] <= now then s.tokens - {h} else s.tokens)
  {
  }

  class Coordinator {
    var next: int64
    const ttlMs: int64
    var active: map<string, int64>
    var tokens: map<string, int64>

    ghost function View(): Coord
      reads this
    {
      Coord(next, ttlMs, active, tokens)
    }

    constructor (ttlMs: int64)
      ensures View() == Coord(0, ttlMs, map[], map[])
    {
      next := 0;
      this.ttlMs := ttlMs;
      active, tokens := map[], map[];
    }

    // Acquire's sweep: a delete-while-ranging loop.
    method EvictExpired(now: int64)
      modifies this`active, this`tokens
      ensures View() == Evict(old(View()), now)
    {
      ghost var before := View();
      SweepEnds(before, now);
      var todo := active.Keys;
      while todo != {}
        invariant todo <= before.active.Keys
        invariant View() == Sweep(before, todo, now)
      {
        var h :| h in todo;
        SweepOne(before, todo, h, now);
        if active[h] <= now {
          active := active - {h};
          tokens := tokens - {h};
        }
        todo := todo - {h};
      }
    }

    method Acquire(holder: string, now: int64) returns (r: Option<Token>)
      modifies this
      ensures (View(), r) == AcquireStep(old(View()), holder, now)
      ensures r.Some? <==> forall h :: h in old(active) ==> old(active)[h] <= now
      ensures r.Some? ==> next == Wrap(old(next) + 1) && r.value == Token(next, holder)
      ensures r.Some? ==> active == map[holder := Wrap(now + ttlMs)]
      ensures r.None? ==> next == old(next)
    {
      EvictsAllIff(View(), now);
      EvictExpired(now);
      if |active| > 0 {
        return None;
      }
      next := Wrap(next + 1);
      active := active[holder := Wrap(now + ttlMs)];
      tokens := tokens[holder := next];
      return Some(Token(next, holder));
    }

    method Renew(holder: string, t1: int64, t2: int64) returns (ok: bool)
      modifies this
      ensures (View(), ok) == RenewStep(old(View()), holder, t1, t2)
      ensures ok <==> holder in old(active) && t1 < old(active)[holder]
      ensures ok ==> active == old(active)[holder := Wrap(t2 + ttlMs)] && tokens == old(tokens)
      ensures !ok ==> active == old(active) - {holder} && tokens == old(tokens) - {holder}
      ensures next == old(next)
    {
      if holder !in active || active[holder] <= t1 {
        active := active - {holder};
        tokens := tokens - {holder};
        return false;
      }
      active := active[holder := Wrap(t2 + ttlMs)];
      return true;
    }
  }

  // Go's map read: an absent resource reads as 0.
  function Newest(newest: map<string, int64>, resource: string): int64 {
    if resource in newest then newest[resource] else 0
  }

  class Fenced {
    var newest: map<string, int64>

    constructor ()
      ensures newest == map[]
    {
      newest := map[];
    }

    // accepted is true when apply ran and the watermark moved; false is ErrFencedOut.
    method Write(resource: string, t: Token) returns (accepted: bool)
      modifies this
      ensures accepted == (old(Newest(newest, resource)) < t.number)
      ensures newest == if accepted then old(newest)[resource := t.number] else old(newest)
    {
      if t.number <= Newest(newest, resource) {
        return false;
      }
      newest := newest[resource := t.number];
      return true;
    }
  }

  // ---- Runs ----

  // A granted lease: its token, its grant time, and its expiry as last renewed.
  datatype Grant = Grant(token: Token, at: int64, expiry: int64)

  datatype Accepted = Accepted(resource: string, grant: nat)

  datatype System = System(
    coord: Coord,
    newest: map<string, int64>,
    grants: seq<Grant>,
    accepted: seq<Accepted>,
    data: map<string, string>)

  // Write presents the token of any lease granted so far: tokens may be held, delayed, duplicated and reordered.
  datatype Label =
    | Acquire(holder: string, now: int64)
    | Renew(holder: string, t1: int64, t2: int64)
    | Write(resource: string, grant: nat, payload: string)

  function Init(ttl: int64): System {
    System(Coord(0, ttl, map[], map[]), map[], [], [], map[])
  }

  function AcquireSys(s: System, h: string, now: int64): System {
    var (c, t) := AcquireStep(s.coord, h, now);
    if t.None? then s.(coord := c)
    else s.(coord := c, grants := s.grants + [Grant(t.value, now, c.active[h])])
  }

  function RenewSys(s: System, h: string, t1: int64, t2: int64): System {
    var (c, ok) := RenewStep(s.coord, h, t1, t2);
    if !ok || s.grants == [] then s.(coord := c)
    else
      var n := |s.grants| - 1;
      s.(coord := c, grants := s.grants[n := s.grants[n].(expiry := c.active[h])])
  }

  function WriteSys(s: System, r: string, g: nat, payload: string): System {
    if g >= |s.grants| || s.grants[g].token.number <= Newest(s.newest, r) then s
    else s.(newest := s.newest[r := s.grants[g].token.number],
            accepted := s.accepted + [Accepted(r, g)],
            data := s.data[r := payload])
  }

  function Step(s: System, l: Label): System {
    match l
    case Acquire(h, now) => AcquireSys(s, h, now)
    case Renew(h, t1, t2) => RenewSys(s, h, t1, t2)
    case Write(r, g, payload) => WriteSys(s, r, g, payload)
  }

  function Run(s: System, ls: seq<Label>): System {
    if ls == [] then s else Step(Run(s, ls[..|ls| - 1]), ls[|ls| - 1])
  }

  // At most the last grant is active; the two maps agree on who holds it.
  ghost predicate OneHolder(s: System) {
    && s.coord.tokens.Keys == s.coord.active.Keys
    && forall h :: h in s.coord.active ==>
         && s.grants != []
         && var last := s.grants[|s.grants| - 1];
            h == last.token.holder && s.coord.active[h] == last.expiry && s.coord.tokens[h] == last.token.number
  }

  lemma StepOneHolder(s: System, l: Label)
    requires OneHolder(s)
    ensures OneHolder(Step(s, l))
  {
    if l.Acquire? {
      assert Evict(s.coord, l.now).tokens.Keys == Evict(s.coord, l.now).active.Keys;
    }
  }

  lemma {:induction false} SubsetSize<T>(a: set<T>, b: set<T>)
    requires a <= b
    ensures |a| <= |b|
    decreases a
  {
    if x :| x in a {
      SubsetSize(a - {x}, b - {x});
    }
  }

  // active and tokens always have the same domain, of size at most one.
  lemma {:induction false} AtMostOneActive(ttl: int64, ls: seq<Label>)
    ensures var s := Run(Init(ttl), ls);
            && OneHolder(s)
            && s.coord.tokens.Keys == s.coord.active.Keys && |s.coord.active| <= 1
  {
    if ls == [] {
    } else {
      AtMostOneActive(ttl, ls[..|ls| - 1]);
      StepOneHolder(Run(Init(ttl), ls[..|ls| - 1]), ls[|ls| - 1]);
    }
    var s := Run(Init(ttl), ls);
    if s.grants != [] {
      var only := {s.grants[|s.grants| - 1].token.holder};
      assert s.coord.active.Keys <= only;
      SubsetSize(s.coord.active.Keys, only);
    } else {
      assert s.coord.active == map[];
    }
  }

  // ---- Fencing ----

  // The counter is an int64 that wraps: the i-th grant carries i + 1 modulo 2^64.
  ghost predicate Numbered(s: System) {
    && s.coord.next == Wrap(|s.grants|)
    && forall i :: 0 <= i < |s.grants| ==> s.grants[i].token.number == Wrap(i + 1)
  }

  lemma StepNumbered(s: System, l: Label)
    requires Numbered(s)
    ensures Numbered(Step(s, l))
  {
    WrapAdd(|s.grants|, 1);
  }

  lemma {:induction false} RunNumbered(s: System, ls: seq<Label>)
    requires Numbered(s)
    ensures Numbered(Run(s, ls))
  {
    if ls == [] {
    } else {
      RunNumbered(s, ls[..|ls| - 1]);
      StepNumbered(Run(s, ls[..|ls| - 1]), ls[|ls| - 1]);
    }
  }

  // So the i-th grant carries number i + 1 exactly until int64 runs out.
  lemma GrantsNumbered(ttl: int64, ls: seq<Label>)
    ensures Numbered(Run(Init(ttl), ls))
    ensures var gs := Run(Init(ttl), ls).grants;
            (forall i :: 0 <= i < |gs| ==> gs[i].token.number == i + 1) <==> |gs| <= MAX
  {
    RunNumbered(Init(ttl), ls);
    var gs := Run(Init(ttl), ls).grants;
    if |gs| > MAX {
      assert gs[MAX].token.number <= MAX;
    }
  }

  // For the first 2^64 grants, a number that has wrapped is not positive.
  lemma WrappedNumber(i: nat)
    requires i < TWO_64
    ensures Wrap(i + 1) == if i < MAX then i + 1 else i + 1 - TWO_64
  {
  }

  // The number of the last write accepted on a resource, 0 if there was none.
  function Watermark(accepted: seq<Accepted>, resource: string): nat {
    if accepted == [] then 0
    else
      var a := accepted[|accepted| - 1];
      if a.resource == resource then a.grant + 1 else Watermark(accepted[..|accepted| - 1], resource)
  }

  ghost predicate InGrantOrder(accepted: seq<Accepted>) {
    forall i, j :: 0 <= i < j < |accepted| && accepted[i].resource == accepted[j].resource ==>
      accepted[i].grant < accepted[j].grant
  }

  ghost predicate Fence(s: System) {
    && (forall r :: Newest(s.newest, r) == Watermark(s.accepted, r))
    && (forall i :: 0 <= i < |s.accepted| ==> s.accepted[i].grant < |s.grants|)
    && InGrantOrder(s.accepted)
  }

  lemma {:induction false} WatermarkBounds(accepted: seq<Accepted>, i: nat)
    requires i < |accepted| && InGrantOrder(accepted)
    ensures accepted[i].grant + 1 <= Watermark(accepted, accepted[i].resource)
  {
    var n := |accepted| - 1;
    if accepted[n].resource != accepted[i].resource {
      WatermarkBounds(accepted[..n], i);
    }
  }

  lemma WriteFence(s: System, r: string, g: nat, payload: string)
    requires Fence(s) && Numbered(s) && |s.grants| <= TWO_64
    ensures Fence(WriteSys(s, r, g, payload))
  {
    var s' := WriteSys(s, r, g, payload);
    if s'.accepted != s.accepted {
      WrappedNumber(g);
      var n := |s.accepted|;
      assert s'.accepted[..n] == s.accepted;
      forall i | 0 <= i < n && s.accepted[i].resource == r ensures s.accepted[i].grant < g {
        WatermarkBounds(s.accepted, i);
      }
    }
  }

  lemma StepFence(s: System, l: Label)
    requires Fence(s) && Numbered(s) && |s.grants| <= TWO_64
    ensures Fence(Step(s, l))
  {
    if l.Write? {
      WriteFence(s, l.resource, l.grant, l.payload);
    } else {
      var s' := Step(s, l);
      assert s'.newest == s.newest && s'.accepted == s.accepted && |s'.grants| >= |s.grants|;
    }
  }

  lemma {:induction false} GrantsGrow(s: System, ls: seq<Label>)
    ensures |Run(s, ls).grants| >= |s.grants|
  {
    if ls == [] {
    } else {
      GrantsGrow(s, ls[..|ls| - 1]);
    }
  }

  lemma {:induction false} RunFence(ttl: int64, ls: seq<Label>)
    requires |Run(Init(ttl), ls).grants| <= TWO_64
    ensures Fence(Run(Init(ttl), ls))
  {
    if ls == [] {
    } else {
      RunFence(ttl, ls[..|ls| - 1]);
      RunNumbered(Init(ttl), ls[..|ls| - 1]);
      StepFence(Run(Init(ttl), ls[..|ls| - 1]), ls[|ls| - 1]);
    }
  }

  // Watermarks start at 0 and only rise, so an accepted token has a positive number.
  ghost predicate Positive(s: System) {
    && (forall i :: 0 <= i < |s.accepted| ==>
          s.accepted[i].grant < |s.grants| && s.grants[s.accepted[i].grant].token.number >= 1)
    && (forall r :: Newest(s.newest, r) >= 0)
  }

  lemma TokensStay(s: System, l: Label)
    ensures var s' := Step(s, l);
            |s'.grants| >= |s.grants| && forall i :: 0 <= i < |s.grants| ==> s'.grants[i].token == s.grants[i].token
  {
  }

  lemma StepPositive(s: System, l: Label)
    requires Positive(s)
    ensures Positive(Step(s, l))
  {
    TokensStay(s, l);
    if !l.Write? {
      assert Step(s, l).accepted == s.accepted && Step(s, l).newest == s.newest;
    }
    forall r ensures Newest(Step(s, l).newest, r) >= 0 {
      assert Newest(s.newest, r) >= 0;
    }
  }

  lemma {:induction false} AcceptedNumbers(ttl: int64, ls: seq<Label>)
    ensures Positive(Run(Init(ttl), ls))
  {
    if ls == [] {
    } else {
      AcceptedNumbers(ttl, ls[..|ls| - 1]);
      StepPositive(Run(Init(ttl), ls[..|ls| - 1]), ls[|ls| - 1]);
    }
  }

  lemma AcceptedNumber(s: System, i: nat)
    requires Numbered(s) && Positive(s) && |s.grants| <= TWO_64 && i < |s.accepted|
    ensures s.grants[s.accepted[i].grant].token.number == s.accepted[i].grant + 1
  {
    WrappedNumber(s.accepted[i].grant);
  }

  // Accepted writes on a resource follow grant order with strictly increasing numbers, and each token is accepted at
  // most once there.
  lemma Fencing(ttl: int64, ls: seq<Label>)
    requires |Run(Init(ttl), ls).grants| <= TWO_64
    ensures var s := Run(Init(ttl), ls);
            && Fence(s)
            && forall i, j :: 0 <= i < j < |s.accepted| && s.accepted[i].resource == s.accepted[j].resource ==>
                 && s.accepted[i].grant < s.accepted[j].grant < |s.grants|
                 && s.grants[s.accepted[i].grant].token.number < s.grants[s.accepted[j].grant].token.number
  {
    RunFence(ttl, ls);
    RunNumbered(Init(ttl), ls);
    AcceptedNumbers(ttl, ls);
    var s := Run(Init(ttl), ls);
    forall i, j | 0 <= i < j < |s.accepted| && s.accepted[i].resource == s.accepted[j].resource
      ensures s.accepted[i].grant < s.accepted[j].grant < |s.grants|
      ensures s.grants[s.accepted[i].grant].token.number < s.grants[s.accepted[j].grant].token.number
    {
      AcceptedNumber(s, i);
      AcceptedNumber(s, j);
    }
  }

  // The grants after the largest int64 number carry tokens that no storage accepts, until the numbers have wrapped all
  // the way round.
  lemma WrappedTokensAreRejected(ttl: int64, ls: seq<Label>, resource: string, g: nat, payload: string)
    requires MAX <= g < TWO_64
    ensures var s := Run(Init(ttl), ls); WriteSys(s, resource, g, payload) == s
  {
    RunNumbered(Init(ttl), ls);
    AcceptedNumbers(ttl, ls);
    WrappedNumber(g);
  }

  // ---- How long fencing lasts ----

  ghost predicate WritesOnly(ls: seq<Label>) { forall i :: 0 <= i < |ls| ==> ls[i].Write? }

  lemma {:induction false} RunSplit(s: System, a: seq<Label>, b: seq<Label>)
    ensures Run(s, a + b) == Run(Run(s, a), b)
  {
    if b == [] {
      assert a + b == a;
    } else {
      assert (a + b)[..|a + b| - 1] == a + b[..|b| - 1];
      RunSplit(s, a, b[..|b| - 1]);
    }
  }

  lemma {:induction false} WritesGrantNothing(s: System, ws: seq<Label>)
    requires WritesOnly(ws)
    ensures Run(s, ws).grants == s.grants
  {
    if ws == [] {
    } else {
      WritesGrantNothing(s, ws[..|ws| - 1]);
    }
  }

  lemma {:induction false} LongerThanAll(ks: set<string>) returns (n: nat)
    ensures forall k :: k in ks ==> |k| < n
    decreases ks
  {
    if ks == {} {
      n := 0;
    } else {
      var k :| k in ks;
      var m := LongerThanAll(ks - {k});
      n := if |k| < m then m else |k| + 1;
    }
  }

  // With more than 2^64 grants numbers repeat: grant 2^64 carries 1 again, and grant 1, with its 2, comes after it.
  lemma OutOfOrder(s: System) returns (ws: seq<Label>)
    requires Numbered(s) && |s.grants| > TWO_64
    ensures WritesOnly(ws) && !InGrantOrder(Run(s, ws).accepted)
  {
    var n := LongerThanAll(s.newest.Keys);
    var r := seq(n, _ => 'r');
    assert r !in s.newest;
    assert (TWO_64 + 1) % TWO_64 == 1;
    var a, b := Write(r, TWO_64, ""), Write(r, 1, "");
    ws := [a, b];
    assert ws[..1] == [a] && Run(s, [a][..0]) == s;
    var s1 := Run(s, [a]);
    assert s1 == WriteSys(s, r, TWO_64, "");
    var s2 := Run(s, ws);
    assert s2 == WriteSys(s1, r, 1, "");
    assert s2.accepted == s.accepted + [Accepted(r, TWO_64), Accepted(r, 1)];
    assert s2.accepted[|s.accepted|] == Accepted(r, TWO_64) && s2.accepted[|s.accepted| + 1] == Accepted(r, 1);
  }

  // Whatever tokens are presented from now on, in whatever order, accepted writes follow grant order: true if and only
  // if no more than 2^64 leases have been granted.
  lemma FencingIff(ttl: int64, ls: seq<Label>)
    ensures (forall ws :: WritesOnly(ws) ==> InGrantOrder(Run(Run(Init(ttl), ls), ws).accepted))
            <==> |Run(Init(ttl), ls).grants| <= TWO_64
  {
    var s := Run(Init(ttl), ls);
    RunNumbered(Init(ttl), ls);
    if |s.grants| <= TWO_64 {
      forall ws | WritesOnly(ws) ensures InGrantOrder(Run(s, ws).accepted) {
        WritesGrantNothing(s, ws);
        RunSplit(Init(ttl), ls, ws);
        Fencing(ttl, ls + ws);
      }
    } else {
      var ws := OutOfOrder(s);
    }
  }

  // ---- Stale writes ----

  ghost predicate SameResource(s: System, s': System, resource: string) {
    && (resource in s.data <==> resource in s'.data)
    && (resource in s.data ==> s'.data[resource] == s.data[resource])
    && Newest(s'.newest, resource) == Newest(s.newest, resource)
  }

  // A step changes a resource only when it is a write there above the watermark.
  lemma StepLeavesAlone(s: System, l: Label, resource: string)
    requires Numbered(s) && |s.grants| <= TWO_64
    requires l.Write? && l.resource == resource ==> l.grant + 1 <= Newest(s.newest, resource)
    ensures SameResource(s, Step(s, l), resource)
  {
    if l.Write? && l.grant < |s.grants| {
      WrappedNumber(l.grant);
    }
  }

  // Once grant g has written a resource, later steps that present only grants up to g leave it alone.
  lemma {:induction false} StaleWritesNeverLand(s: System, later: seq<Label>, resource: string, g: nat)
    requires Fence(s) && Numbered(s) && Accepted(resource, g) in s.accepted
    requires forall i :: 0 <= i < |later| && later[i].Write? && later[i].resource == resource ==> later[i].grant <= g
    requires |Run(s, later).grants| <= TWO_64
    ensures SameResource(s, Run(s, later), resource)
  {
    if later == [] {
    } else {
      var n := |later| - 1;
      assert |Run(s, later[..n]).grants| <= |Run(s, later).grants|;
      StaleWritesNeverLand(s, later[..n], resource, g);
      var i :| 0 <= i < |s.accepted| && s.accepted[i] == Accepted(resource, g);
      WatermarkBounds(s.accepted, i);
      RunNumbered(s, later[..n]);
      StepLeavesAlone(Run(s, later[..n]), later[n], resource);
    }
  }

  // The same over a whole run: after grant g is accepted, no write of an earlier (or the same) grant lands.
  lemma StaleWritesNeverLandInRun(ttl: int64, before: seq<Label>, later: seq<Label>, resource: string, g: nat)
    requires Accepted(resource, g) in Run(Init(ttl), before).accepted
    requires forall i :: 0 <= i < |later| && later[i].Write? && later[i].resource == resource ==> later[i].grant <= g
    requires |Run(Init(ttl), before + later).grants| <= TWO_64
    ensures SameResource(Run(Init(ttl), before), Run(Init(ttl), before + later), resource)
  {
    RunSplit(Init(ttl), before, later);
    GrantsGrow(Run(Init(ttl), before), later);
    RunFence(ttl, before);
    RunNumbered(Init(ttl), before);
    StaleWritesNeverLand(Run(Init(ttl), before), later, resource, g);
  }

  // ---- Exclusion in time ----

  function LastRead(ls: seq<Label>): int64 {
    if ls == [] then MIN
    else match ls[|ls| - 1]
      case Acquire(_, now) => now
      case Renew(_, _, t2) => t2
      case Write(_, _, _) => LastRead(ls[..|ls| - 1])
  }

  ghost predicate Monotone(ls: seq<Label>) {
    ls == [] ||
    (var init := ls[..|ls| - 1];
     && Monotone(init)
     && match ls[|ls| - 1]
        case Acquire(_, now) => LastRead(init) <= now
        case Renew(_, t1, t2) => LastRead(init) <= t1 <= t2
        case Write(_, _, _) => true)
  }

  ghost predicate Exclusive(s: System, clock: int64) {
    && (forall i, j :: 0 <= i < j < |s.grants| ==> s.grants[i].expiry <= s.grants[j].at)
    && (forall i :: 0 <= i < |s.grants| ==> s.grants[i].at <= clock)
    && (s.grants != [] && s.coord.active == map[] ==> s.grants[|s.grants| - 1].expiry <= clock)
  }

  lemma AcquireExclusive(s: System, h: string, now: int64, clock: int64)
    requires OneHolder(s) && Exclusive(s, clock) && clock <= now
    ensures Exclusive(AcquireSys(s, h, now), now)
  {
    var e := Evict(s.coord, now);
    if e.active == map[] && s.grants != [] {
      var last := s.grants[|s.grants| - 1];
      assert last.expiry <= now by {
        if s.coord.active != map[] {
          var k :| k in s.coord.active;
          assert k !in e.active;
          assert Expired(s.coord, k, now);
        }
      }
    }
  }

  lemma RenewExclusive(s: System, h: string, t1: int64, t2: int64, clock: int64)
    requires OneHolder(s) && Exclusive(s, clock) && clock <= t1 <= t2
    ensures Exclusive(RenewSys(s, h, t1, t2), t2)
  {
  }

  lemma StepExclusive(s: System, l: Label, clock: int64, clock': int64)
    requires OneHolder(s) && Exclusive(s, clock)
    requires match l
             case Acquire(_, now) => clock <= now == clock'
             case Renew(_, t1, t2) => clock <= t1 <= t2 == clock'
             case Write(_, _, _) => clock' == clock
    ensures Exclusive(Step(s, l), clock')
  {
    match l
    case Write(r, g, payload) =>
    case Renew(h, t1, t2) => RenewExclusive(s, h, t1, t2, clock);
    case Acquire(h, now) => AcquireExclusive(s, h, now, clock);
  }

  // For any two leases the earlier one, renewals included, has expired when the later one is granted.
  lemma {:induction false} LeasesExclude(ttl: int64, ls: seq<Label>)
    requires Monotone(ls)
    ensures Exclusive(Run(Init(ttl), ls), LastRead(ls))
  {
    if ls == [] {
    } else {
      var init := ls[..|ls| - 1];
      LeasesExclude(ttl, init);
      AtMostOneActive(ttl, init);
      StepExclusive(Run(Init(ttl), init), ls[|ls| - 1], LastRead(init), LastRead(ls));
    }
  }

  predicate HeldAt(g: Grant, t: int64) { g.at <= t < g.expiry }

  lemma AtMostOneLeaseUnexpired(ttl: int64, ls: seq<Label>, t: int64, i: nat, j: nat)
    requires Monotone(ls)
    requires var s := Run(Init(ttl), ls);
             i < |s.grants| && j < |s.grants| && HeldAt(s.grants[i], t) && HeldAt(s.grants[j], t)
    ensures i == j
  {
    LeasesExclude(ttl, ls);
  }

  // ---- How long a lease lasts ----

  // What the coordinator promises, read from the labels alone: a lease lasts its TTL from the grant, or from the
  // second clock reading of its holder's last renewal in time; the next one is granted once it has run out.
  datatype Term = Term(holder: string, at: int64, expiry: int64)

  function TermStep(ttl: int64, terms: seq<Term>, l: Label): seq<Term> {
    var n := |terms| - 1;
    match l
    case Acquire(h, now) =>
      if terms == [] || terms[n].expiry <= now then terms + [Term(h, now, Wrap(now + ttl))] else terms
    case Renew(h, t1, t2) =>
      if terms != [] && terms[n].holder == h && t1 < terms[n].expiry
      then terms[n := terms[n].(expiry := Wrap(t2 + ttl))]
      else terms
    case Write(_, _, _) => terms
  }

  function Terms(ttl: int64, ls: seq<Label>): seq<Term> {
    if ls == [] then [] else TermStep(ttl, Terms(ttl, ls[..|ls| - 1]), ls[|ls| - 1])
  }

  ghost predicate Matches(grants: seq<Grant>, terms: seq<Term>) {
    && |grants| == |terms|
    && forall i :: 0 <= i < |grants| ==>
         grants[i].token.holder == terms[i].holder && grants[i].at == terms[i].at && grants[i].expiry == terms[i].expiry
  }

  // Whether the last term has run out decides whether anybody is active.
  lemma AcquireIff(s: System, h: string, now: int64, clock: int64)
    requires OneHolder(s) && Exclusive(s, clock) && clock <= now
    ensures AcquireStep(s.coord, h, now).1.Some? <==> s.grants == [] || s.grants[|s.grants| - 1].expiry <= now
  {
    if k :| k in s.coord.active {
      assert s.coord.active[k] == s.grants[|s.grants| - 1].expiry;
      if now < s.coord.active[k] {
        assert k in Evict(s.coord, now).active;
      } else {
        assert Evict(s.coord, now).active == map[];
      }
    } else {
      assert Evict(s.coord, now).active == map[];
    }
  }

  lemma RenewIff(s: System, h: string, t1: int64, t2: int64, clock: int64)
    requires OneHolder(s) && Exclusive(s, clock) && clock <= t1
    ensures RenewStep(s.coord, h, t1, t2).1
            <==> s.grants != [] && s.grants[|s.grants| - 1].token.holder == h && t1 < s.grants[|s.grants| - 1].expiry
  {
    if s.coord.active != map[] {
      var k :| k in s.coord.active;
    }
  }

  lemma StepMatches(s: System, l: Label, terms: seq<Term>, clock: int64)
    requires OneHolder(s) && Exclusive(s, clock) && Matches(s.grants, terms)
    requires match l
             case Acquire(_, now) => clock <= now
             case Renew(_, t1, t2) => clock <= t1 <= t2
             case Write(_, _, _) => true
    ensures Matches(Step(s, l).grants, TermStep(s.coord.ttl, terms, l)) && Step(s, l).coord.ttl == s.coord.ttl
  {
    match l
    case Acquire(h, now) => AcquireIff(s, h, now, clock);
    case Renew(h, t1, t2) => RenewIff(s, h, t1, t2, clock);
    case Write(_, _, _) =>
  }

  // The two maps and the counter come to that: under a monotone clock the leases granted, and how long each lasts, are
  // the terms.
  lemma {:induction false} GrantsAreTerms(ttl: int64, ls: seq<Label>)
    requires Monotone(ls)
    ensures Matches(Run(Init(ttl), ls).grants, Terms(ttl, ls)) && Run(Init(ttl), ls).coord.ttl == ttl
  {
    if ls == [] {
    } else {
      var init := ls[..|ls| - 1];
      GrantsAreTerms(ttl, init);
      AtMostOneActive(ttl, init);
      LeasesExclude(ttl, init);
      StepMatches(Run(Init(ttl), init), ls[|ls| - 1], Terms(ttl, init), LastRead(init));
    }
  }

  // So Acquire answers with a token exactly when no term is running, and Renew says yes exactly to the holder of the
  // running one.
  lemma AnswersAreTerms(ttl: int64, ls: seq<Label>, h: string, t1: int64, t2: int64)
    requires Monotone(ls) && LastRead(ls) <= t1
    ensures var c, terms := Run(Init(ttl), ls).coord, Terms(ttl, ls);
            var running := terms != [] && t1 < terms[|terms| - 1].expiry;
            && (AcquireStep(c, h, t1).1.Some? <==> !running)
            && (AcquireStep(c, h, t1).1.Some? ==> AcquireStep(c, h, t1).1.value.holder == h)
            && (RenewStep(c, h, t1, t2).1 <==> running && terms[|terms| - 1].holder == h)
  {
    var s := Run(Init(ttl), ls);
    GrantsAreTerms(ttl, ls);
    AtMostOneActive(ttl, ls);
    LeasesExclude(ttl, ls);
    AcquireIff(s, h, t1, LastRead(ls));
    RenewIff(s, h, t1, t2, LastRead(ls));
  }

  // Nobody asks for the lease at or after `until`, and no renewal runs into the end of int64.
  ghost predicate AllBefore(ls: seq<Label>, until: int, ttl: int64) {
    forall i :: 0 <= i < |ls| ==>
      && (ls[i].Acquire? ==> ls[i].now < until)
      && (ls[i].Renew? ==> Fits(ls[i].t2 + ttl))
  }

  // The last of the terms runs until `until` at least.
  predicate RunsUntil(terms: seq<Term>, until: int) { terms != [] && terms[|terms| - 1].expiry >= until }

  lemma StepLasts(ttl: int64, terms: seq<Term>, l: Label, now: int)
    requires RunsUntil(terms, now + ttl)
    requires l.Acquire? ==> l.now < now + ttl
    requires l.Renew? ==> l.t2 >= now && Fits(l.t2 + ttl)
    ensures |TermStep(ttl, terms, l)| == |terms| && RunsUntil(TermStep(ttl, terms, l), now + ttl)
  {
  }

  lemma {:induction false} TermsLast(ttl: int64, granted: seq<Label>, later: seq<Label>, now: int)
    requires Monotone(granted + later) && AllBefore(later, now + ttl, ttl) && LastRead(granted) >= now
    requires RunsUntil(Terms(ttl, granted), now + ttl)
    ensures |Terms(ttl, granted + later)| == |Terms(ttl, granted)| && RunsUntil(Terms(ttl, granted + later), now + ttl)
    ensures LastRead(granted + later) >= now
  {
    if later == [] {
      assert granted + later == granted;
    } else {
      var n := |later| - 1;
      var all := granted + later;
      assert all[..|all| - 1] == granted + later[..n] && all[|all| - 1] == later[n];
      TermsLast(ttl, granted, later[..n], now);
      StepLasts(ttl, Terms(ttl, granted + later[..n]), later[n], now);
    }
  }

  lemma {:induction false} MonotonePrefix(a: seq<Label>, b: seq<Label>)
    requires Monotone(a + b)
    ensures Monotone(a)
  {
    if b == [] {
      assert a + b == a;
    } else {
      assert (a + b)[..|a + b| - 1] == a + b[..|b| - 1];
      MonotonePrefix(a, b[..|b| - 1]);
    }
  }

  // A lease granted at `now` keeps everybody else out until now + ttl at least: as long as nobody asks later than that,
  // nobody is granted another one.
  lemma LeaseLasts(ttl: int64, before: seq<Label>, h: string, now: int64, later: seq<Label>)
    requires var granted := before + [Acquire(h, now)];
             && Monotone(granted + later) && AllBefore(later, now + ttl, ttl) && Fits(now + ttl)
             && |Run(Init(ttl), granted).grants| > |Run(Init(ttl), before).grants|
    ensures |Run(Init(ttl), before + [Acquire(h, now)] + later).grants|
            == |Run(Init(ttl), before + [Acquire(h, now)]).grants|
  {
    var granted := before + [Acquire(h, now)];
    MonotonePrefix(granted, later);
    assert granted[..|before|] == before && Monotone(before);
    GrantsAreTerms(ttl, before);
    GrantsAreTerms(ttl, granted);
    GrantsAreTerms(ttl, granted + later);
    TermsLast(ttl, granted, later, now);
  }

  // A write lands exactly when its number is above the watermark; then the payload is what the resource holds.
  lemma WriteLands(s: System, r: string, g: nat, payload: string)
    requires g < |s.grants|
    ensures var s', landed := Step(s, Write(r, g, payload)), Newest(s.newest, r) < s.grants[g].token.number;
            && (landed ==> r in s'.data && s'.data[r] == payload && s'.accepted == s.accepted + [Accepted(r, g)])
            && (landed ==> s'.newest == s.newest[r := s.grants[g].token.number])
            && (!landed ==> s' == s)
            && (forall q :: q != r && q in s.data ==> q in s'.data && s'.data[q] == s.data[q])
  {
  }
}
