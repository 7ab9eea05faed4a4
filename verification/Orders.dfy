/** Idempotent order processing: claim, apply and release under concurrent duplicate deliveries. */
module Orders {
  import opened Option

  datatype Order = Order(orderID: string, accountID: string, amountMinor: int, currency: string)

  // JSON decoding is abstract: None stands for a value that does not unmarshal.
  datatype Envelope = Envelope(version: int, payload: Option<Order>)
  datatype Message = Message(idempotencyKey: string, envelope: Option<Envelope>)

  datatype Malformed = MissingKey | BadEnvelope | UnsupportedVersion(version: int) | BadPayload

  datatype Outcome =
    | Applied                       // nil: this delivery applied the order
    | Duplicate                     // nil: somebody else holds the claim
    | Terminal(why: Malformed)
    | ClaimFailed                   // retryable: store trouble
    | ApplyFailed                   // retryable: the claim was released
    | ApplyAndReleaseFailed         // the claim is stuck

  predicate IsNil(o: Outcome) { o.Applied? || o.Duplicate? }

  datatype Decoded = Order(key: string, order: Order) | Rejected(why: Malformed)

  function Decode(msg: Message): Decoded {
    if msg.idempotencyKey == "" then Rejected(MissingKey)
    else match msg.envelope
      case None => Rejected(BadEnvelope)
      case Some(env) =>
        if env.version != 1 then Rejected(UnsupportedVersion(env.version))
        else match env.payload
          case None => Rejected(BadPayload)
          case Some(order) => Decoded.Order(msg.idempotencyKey, order)
  }

  // A key, an envelope of the one supported version, and a payload that decodes.
  predicate WellFormed(msg: Message) {
    && msg.idempotencyKey != "" && msg.envelope.Some?
    && msg.envelope.value.version == 1 && msg.envelope.value.payload.Some?
  }

  // ---- The in-memory claim store ----

  class MemoryClaims {
    var active: map<string, bool>

    ghost predicate Valid()
      reads this
    {
      forall id :: id in active ==> active[id]
    }

    constructor ()
      ensures Valid() && active == map[]
    {
      active := map[];
    }

    method Claim(id: string) returns (won: bool)
      requires Valid()
      modifies this
      ensures Valid() && (won <==> id !in old(active))
      ensures active.Keys == old(active).Keys + {id}
    {
      if id in active && active[id] {
        return false;
      }
      active := active[id := true];
      return true;
    }

    method Release(id: string)
      requires Valid()
      modifies this
      ensures Valid() && active.Keys == old(active).Keys - {id}
    {
      active := active - {id};
    }
  }

  // What the claim store and the applier answer when this delivery calls them.
  datatype World = World(claimErr: bool, applyErr: bool, releaseErr: bool)

  // The sequential result: outcome, whether Apply was called, and the claims afterwards.
  ghost function Solo(claimed: set<string>, msg: Message, w: World): (Outcome, bool, set<string>) {
    match Decode(msg)
    case Rejected(why) => (Terminal(why), false, claimed)
    case Order(k, _) =>
      if w.claimErr then (ClaimFailed, false, claimed)
      else if k in claimed then (Duplicate, false, claimed)
      else if !w.applyErr then (Applied, true, claimed + {k})
      else if w.releaseErr then (ApplyAndReleaseFailed, true, claimed + {k})
      else (ApplyFailed, true, claimed)
  }

  class OrderService {
    const claims: MemoryClaims

    constructor (claims: MemoryClaims)
      ensures this.claims == claims
    {
      this.claims := claims;
    }

    // One delivery with nobody else running: calledApply says whether the applier was called.
    method Process(msg: Message, w: World) returns (outcome: Outcome, calledApply: bool)
      requires claims.Valid()
      modifies claims
      ensures claims.Valid()
      ensures (outcome, calledApply, claims.active.Keys) == Solo(old(claims.active.Keys), msg, w)
      ensures calledApply <==> WellFormed(msg) && !w.claimErr && msg.idempotencyKey !in old(claims.active)
      ensures outcome.Terminal? <==> !WellFormed(msg)
      ensures outcome.ClaimFailed? <==> WellFormed(msg) && w.claimErr
      ensures outcome.Applied? <==> calledApply && !w.applyErr
      ensures outcome.ApplyFailed? <==> calledApply && w.applyErr && !w.releaseErr
      ensures outcome.ApplyAndReleaseFailed? <==> calledApply && w.applyErr && w.releaseErr
      ensures claims.active.Keys == old(claims.active).Keys
              + if outcome.Applied? || outcome.ApplyAndReleaseFailed? then {msg.idempotencyKey} else {}
    {
      calledApply := false;
      match Decode(msg)
      case Rejected(why) => return Terminal(why), false;
      case Order(id, order) =>
        if w.claimErr {
          return ClaimFailed, false;
        }
        var inserted := claims.Claim(id);
        if !inserted {
          assert claims.active.Keys == old(claims.active.Keys);
          return Duplicate, false;
        }
        calledApply := true;
        if w.applyErr {
          if w.releaseErr {
            return ApplyAndReleaseFailed, true;
          }
          claims.Release(id);
          assert claims.active.Keys == old(claims.active.Keys);
          return ApplyFailed, true;
        }
        return Applied, true;
    }
  }

  // ---- Concurrent deliveries ----

  datatype Phase =
    | Claiming(key: string, order: Order)
    | Applying(key: string, order: Order)
    | Releasing(key: string)
    | Finished(key: string, outcome: Outcome)

  datatype State = State(
    claimed: set<string>,
    deliveries: map<nat, Phase>,
    applied: seq<string>,      // keys whose Apply succeeded, in that order
    stuck: set<string>)        // keys whose Release failed

  datatype Label =
    | Deliver(p: nat, msg: Message)
    | Claim(p: nat)
    | ClaimErr(p: nat)
    | ApplyOk(p: nat)
    | ApplyErr(p: nat)
    | Release(p: nat)
    | ReleaseErr(p: nat)

  function Init(): State { State({}, map[], [], {}) }

  predicate Enabled(s: State, l: Label) {
    match l
    case Deliver(p, _) => p !in s.deliveries
    case Claim(p) => p in s.deliveries && s.deliveries[p].Claiming?
    case ClaimErr(p) => p in s.deliveries && s.deliveries[p].Claiming?
    case ApplyOk(p) => p in s.deliveries && s.deliveries[p].Applying?
    case ApplyErr(p) => p in s.deliveries && s.deliveries[p].Applying?
    case Release(p) => p in s.deliveries && s.deliveries[p].Releasing?
    case ReleaseErr(p) => p in s.deliveries && s.deliveries[p].Releasing?
  }

  function Move(s: State, p: nat, ph: Phase): State { s.(deliveries := s.deliveries[p := ph]) }

  function Step(s: State, l: Label): State {
    if !Enabled(s, l) then s
    else match l
      case Deliver(p, msg) =>
        (match Decode(msg)
         case Rejected(why) => Move(s, p, Finished(msg.idempotencyKey, Terminal(why)))
         case Order(k, order) => Move(s, p, Claiming(k, order)))
      case Claim(p) =>
        var k := s.deliveries[p].key;
        if k in s.claimed then Move(s, p, Finished(k, Duplicate))
        else Move(s, p, Applying(k, s.deliveries[p].order)).(claimed := s.claimed + {k})
      case ClaimErr(p) => Move(s, p, Finished(s.deliveries[p].key, ClaimFailed))
      case ApplyOk(p) =>
        var k := s.deliveries[p].key;
        Move(s, p, Finished(k, Applied)).(applied := s.applied + [k])
      case ApplyErr(p) => Move(s, p, Releasing(s.deliveries[p].key))
      case Release(p) =>
        var k := s.deliveries[p].key;
        Move(s, p, Finished(k, ApplyFailed)).(claimed := s.claimed - {k})
      case ReleaseErr(p) =>
        var k := s.deliveries[p].key;
        Move(s, p, Finished(k, ApplyAndReleaseFailed)).(stuck := s.stuck + {k})
  }

  function Run(ls: seq<Label>): State {
    if ls == [] then Init() else Step(Run(ls[..|ls| - 1]), ls[|ls| - 1])
  }

  predicate Holds(ph: Phase, key: string) { (ph.Applying? || ph.Releasing?) && ph.key == key }

  ghost predicate InFlight(s: State, key: string) {
    exists p :: p in s.deliveries && Holds(s.deliveries[p], key)
  }

  ghost predicate OneHolder(s: State) {
    forall p, q, key ::
      (p in s.deliveries && q in s.deliveries && Holds(s.deliveries[p], key) && Holds(s.deliveries[q], key)) ==> p == q
  }

  ghost predicate HoldersExclusive(s: State) {
    forall p :: p in s.deliveries && (s.deliveries[p].Applying? || s.deliveries[p].Releasing?) ==>
      var k := s.deliveries[p].key; k in s.claimed && k !in s.applied && k !in s.stuck
  }

  // The claim set is exactly the keys in flight, applied, or stuck.
  ghost predicate ClaimsExact(s: State) {
    && (forall k :: k in s.claimed ==> InFlight(s, k) || k in s.applied || k in s.stuck)
    && (forall k :: k in s.applied || k in s.stuck ==> k in s.claimed)
  }

  ghost predicate AppliedOnce(s: State) {
    && (forall i, j :: 0 <= i < j < |s.applied| ==> s.applied[i] != s.applied[j])
    && (forall k :: k in s.stuck ==> k !in s.applied)
  }

  ghost predicate Failed(s: State, key: string) {
    exists q :: q in s.deliveries && s.deliveries[q] == Finished(key, ApplyFailed)
  }

  // A duplicate that was told nil has a claim behind it, or an error that somebody else was told.
  ghost predicate DuplicatesBacked(s: State) {
    forall p :: p in s.deliveries && s.deliveries[p].Finished? && s.deliveries[p].outcome.Duplicate? ==>
      s.deliveries[p].key in s.claimed || Failed(s, s.deliveries[p].key)
  }

  ghost predicate Invariant(s: State) {
    OneHolder(s) && HoldersExclusive(s) && ClaimsExact(s) && AppliedOnce(s) && DuplicatesBacked(s)
  }

  lemma MoveKeepsFailed(s: State, s': State, p: nat, key: string)
    requires Failed(s, key) && p in s'.deliveries && s'.deliveries == s.deliveries[p := s'.deliveries[p]]
    requires p in s.deliveries ==> !s.deliveries[p].Finished?
    ensures Failed(s', key)
  {
    var q :| q in s.deliveries && s.deliveries[q] == Finished(key, ApplyFailed);
    assert s'.deliveries[q] == Finished(key, ApplyFailed);
  }

  // A step that moves one delivery and touches no claim: everyone else's hold stays.
  lemma MoveKeepsInFlight(s: State, s': State, p: nat, key: string)
    requires InFlight(s, key) && p in s'.deliveries && s'.deliveries == s.deliveries[p := s'.deliveries[p]]
    requires p in s.deliveries && Holds(s.deliveries[p], key) ==> Holds(s'.deliveries[p], key)
    ensures InFlight(s', key)
  {
    var q :| q in s.deliveries && Holds(s.deliveries[q], key);
    assert q in s'.deliveries && Holds(s'.deliveries[q], key);
  }

  lemma StepClaimsExact(s: State, l: Label)
    requires Invariant(s) && Enabled(s, l)
    ensures ClaimsExact(Step(s, l))
  {
    var s' := Step(s, l);
    var p := l.p;
    forall k | k in s'.claimed ensures InFlight(s', k) || k in s'.applied || k in s'.stuck {
      if InFlight(s, k) && (p in s.deliveries && Holds(s.deliveries[p], k) ==> Holds(s'.deliveries[p], k)) {
        MoveKeepsInFlight(s, s', p, k);
      } else if k !in s.claimed {
        assert Holds(s'.deliveries[p], k);
      }
    }
    if l.Release? {
      var k := s.deliveries[p].key;
      assert k !in s.applied && k !in s.stuck;
    }
  }

  lemma StepDuplicatesBacked(s: State, l: Label)
    requires DuplicatesBacked(s) && Enabled(s, l)
    ensures DuplicatesBacked(Step(s, l))
  {
    var s' := Step(s, l);
    forall p | p in s'.deliveries && s'.deliveries[p].Finished? && s'.deliveries[p].outcome.Duplicate?
      ensures s'.deliveries[p].key in s'.claimed || Failed(s', s'.deliveries[p].key)
    {
      var k := s'.deliveries[p].key;
      if p != l.p {
        if Failed(s, k) {
          MoveKeepsFailed(s, s', l.p, k);
        } else if l.Release? && s.deliveries[l.p].key == k {
          assert s'.deliveries[l.p] == Finished(k, ApplyFailed);
        }
      }
    }
  }

  lemma StepExclusive(s: State, l: Label)
    requires Invariant(s) && Enabled(s, l)
    ensures var s' := Step(s, l); OneHolder(s') && HoldersExclusive(s') && AppliedOnce(s')
  {
    if l.Claim? && s.deliveries[l.p].key !in s.claimed {
      var k := s.deliveries[l.p].key;
      forall q | q in s.deliveries ensures !Holds(s.deliveries[q], k) {
      }
    }
  }

  lemma StepInvariant(s: State, l: Label)
    requires Invariant(s) && Enabled(s, l)
    ensures Invariant(Step(s, l))
  {
    StepClaimsExact(s, l);
    StepDuplicatesBacked(s, l);
    StepExclusive(s, l);
  }

  // In every interleaving of any number of deliveries: at most one Apply per key is in progress, at most one
  // ever succeeds, and the claims are exactly the keys in flight, applied or stuck.
  lemma {:induction false} ClaimsAreExact(ls: seq<Label>)
    ensures Invariant(Run(ls))
  {
    if ls == [] {
    } else {
      ClaimsAreExact(ls[..|ls| - 1]);
      var s := Run(ls[..|ls| - 1]);
      if Enabled(s, ls[|ls| - 1]) {
        StepInvariant(s, ls[|ls| - 1]);
      }
    }
  }

  lemma AtMostOneApplyPerKey(ls: seq<Label>, p: nat, q: nat, key: string)
    requires var s := Run(ls);
             && p in s.deliveries && s.deliveries[p].Applying? && s.deliveries[p].key == key
             && q in s.deliveries && s.deliveries[q].Applying? && s.deliveries[q].key == key
    ensures p == q && multiset(Run(ls).applied)[key] == 0
  {
    ClaimsAreExact(ls);
    var s := Run(ls);
    assert Holds(s.deliveries[p], key) && Holds(s.deliveries[q], key);
    assert key !in s.applied;
  }

  lemma {:induction false} DistinctMeansOnce(ks: seq<string>, key: string)
    requires forall i, j :: 0 <= i < j < |ks| ==> ks[i] != ks[j]
    ensures multiset(ks)[key] <= 1
  {
    if ks == [] {
    } else {
      var n := |ks| - 1;
      DistinctMeansOnce(ks[..n], key);
      assert ks == ks[..n] + [ks[n]];
      assert ks[n] !in ks[..n];
    }
  }

  lemma AppliedAtMostOnce(ls: seq<Label>, key: string)
    ensures multiset(Run(ls).applied)[key] <= 1
  {
    ClaimsAreExact(ls);
    DistinctMeansOnce(Run(ls).applied, key);
  }

  // A key is stuck only if the release of that key has failed.
  lemma {:induction false} StuckOnlyByReleaseErr(ls: seq<Label>, key: string)
    requires forall i :: 0 <= i < |ls| && ls[i].ReleaseErr? && Enabled(Run(ls[..i]), ls[i]) ==>
      Run(ls[..i]).deliveries[ls[i].p].key != key
    ensures key !in Run(ls).stuck
  {
    if ls == [] {
    } else {
      var n := |ls| - 1;
      forall i | 0 <= i < n && ls[..n][i].ReleaseErr? && Enabled(Run(ls[..n][..i]), ls[..n][i])
        ensures Run(ls[..n][..i]).deliveries[ls[..n][i].p].key != key
      {
        assert ls[..n][..i] == ls[..i];
      }
      StuckOnlyByReleaseErr(ls[..n], key);
      assert ls[n].ReleaseErr? && Enabled(Run(ls[..n]), ls[n]) ==> Run(ls[..n]).deliveries[ls[n].p].key != key;
    }
  }

  // With nothing in flight for a key it is claimed exactly when its order was applied or its release failed; and a
  // duplicate that was told nil about an unapplied order is matched by a retryable error told to another.
  lemma QuietClaimsAreApplied(ls: seq<Label>, key: string)
    requires !InFlight(Run(ls), key)
    ensures var s := Run(ls);
            && (key in s.claimed <==> key in s.applied || key in s.stuck)
            && (key !in s.stuck ==> (key in s.claimed <==> key in s.applied))
            && (forall p :: p in s.deliveries && s.deliveries[p] == Finished(key, Duplicate) ==>
                  key in s.applied || key in s.stuck || Failed(s, key))
  {
    ClaimsAreExact(ls);
  }

  lemma StepStuck(s: State, l: Label, key: string)
    requires Invariant(s) && key in s.stuck
    ensures key in Step(s, l).stuck
  {
  }

  // The claim is lost for good when Release fails: in every continuation the key stays claimed and unapplied, and a
  // delivery that tries to claim it is told it is a duplicate.
  lemma {:induction false} StuckStaysClaimed(before: seq<Label>, later: seq<Label>, key: string)
    requires key in Run(before).stuck
    ensures var s := Run(before + later);
            && key in s.stuck && key in s.claimed && key !in s.applied
            && forall p :: p in s.deliveries && s.deliveries[p].Claiming? && s.deliveries[p].key == key ==>
                 Step(s, Claim(p)).deliveries[p] == Finished(key, Duplicate)
  {
    ClaimsAreExact(before + later);
    if later == [] {
      assert before + later == before;
    } else {
      var n := |later| - 1;
      assert (before + later)[..|before| + n] == before + later[..n];
      StuckStaysClaimed(before, later[..n], key);
      ClaimsAreExact(before + later[..n]);
      StepStuck(Run(before + later[..n]), later[n], key);
    }
  }

  // The sequential Process is these steps of one delivery with nobody in between.
  lemma SoloIsTheseSteps(s: State, p: nat, msg: Message, w: World)
    requires p !in s.deliveries
    ensures var s1 := Step(s, Deliver(p, msg));
            var s2 := Step(s1, if w.claimErr then ClaimErr(p) else Claim(p));
            var s3 := Step(s2, if w.applyErr then ApplyErr(p) else ApplyOk(p));
            var s4 := Step(s3, if w.releaseErr then ReleaseErr(p) else Release(p));
            var (outcome, calledApply, claimed) := Solo(s.claimed, msg, w);
            && p in s4.deliveries && s4.deliveries[p] == Finished(msg.idempotencyKey, outcome)
            && s4.claimed == claimed
            && (p in s2.deliveries && s2.deliveries[p].Applying? <==> calledApply)
  {
    var k := msg.idempotencyKey;
    if k !in s.claimed {
      assert s.claimed + {k} - {k} == s.claimed;
    }
  }

  // What a delivery is told at once: the first thing wrong with its message, in this order; nothing, if it can go on to
  // claim its key, with the order that its payload carries.
  lemma DeliveryAnswers(s: State, p: nat, msg: Message)
    requires p !in s.deliveries
    ensures var s', k := Step(s, Deliver(p, msg)), msg.idempotencyKey;
            && s'.claimed == s.claimed && s'.applied == s.applied && s'.stuck == s.stuck
            && p in s'.deliveries && s'.deliveries - {p} == s.deliveries
            && s'.deliveries[p] ==
               if k == "" then Finished(k, Terminal(MissingKey))
               else if msg.envelope.None? then Finished(k, Terminal(BadEnvelope))
               else if msg.envelope.value.version != 1 then
                 Finished(k, Terminal(UnsupportedVersion(msg.envelope.value.version)))
               else if msg.envelope.value.payload.None? then Finished(k, Terminal(BadPayload))
               else Claiming(k, msg.envelope.value.payload.value)
  {
  }

  // What each later step makes of one delivery, and of the claims; no other delivery is touched.
  lemma StepAnswers(s: State, l: Label)
    requires Enabled(s, l) && !l.Deliver?
    ensures var s', ph, k := Step(s, l), s.deliveries[l.p], s.deliveries[l.p].key;
            var taken := k in s.claimed;
            && s'.deliveries == s.deliveries[l.p := s'.deliveries[l.p]]
            && s'.claimed == (if l.Claim? then s.claimed + {k} else if l.Release? then s.claimed - {k} else s.claimed)
            && s'.applied == (if l.ApplyOk? then s.applied + [k] else s.applied)
            && s'.stuck == (if l.ReleaseErr? then s.stuck + {k} else s.stuck)
            && (l.Claim? ==> s'.deliveries[l.p] == if taken then Finished(k, Duplicate) else Applying(k, ph.order))
            && (l.ClaimErr? ==> s'.deliveries[l.p] == Finished(k, ClaimFailed))
            && (l.ApplyOk? ==> s'.deliveries[l.p] == Finished(k, Applied))
            && (l.ApplyErr? ==> s'.deliveries[l.p] == Releasing(k))
            && (l.Release? ==> s'.deliveries[l.p] == Finished(k, ApplyFailed))
            && (l.ReleaseErr? ==> s'.deliveries[l.p] == Finished(k, ApplyAndReleaseFailed))
  {
  }

  ghost predicate Told(s: State, key: string, outcome: Outcome) {
    exists p :: p in s.deliveries && s.deliveries[p] == Finished(key, outcome)
  }

  // Applied is told about the keys applied and no others, to one delivery each; a failed release likewise.
  ghost predicate Truthful(s: State) {
    && (forall k :: k in s.applied <==> Told(s, k, Applied))
    && (forall k :: k in s.stuck <==> Told(s, k, ApplyAndReleaseFailed))
  }

  ghost predicate ToldOnce(s: State) {
    forall p, q ::
      (&& p in s.deliveries && q in s.deliveries && s.deliveries[p] == s.deliveries[q]
       && s.deliveries[p].Finished? && s.deliveries[p].outcome.Applied?) ==> p == q
  }

  lemma ToldMoves(s: State, s': State, p: nat, key: string, outcome: Outcome)
    requires p in s'.deliveries && s'.deliveries == s.deliveries[p := s'.deliveries[p]]
    requires p in s.deliveries ==> !s.deliveries[p].Finished?
    ensures Told(s', key, outcome) <==> Told(s, key, outcome) || s'.deliveries[p] == Finished(key, outcome)
  {
    if Told(s, key, outcome) {
      var q :| q in s.deliveries && s.deliveries[q] == Finished(key, outcome);
      assert s'.deliveries[q] == Finished(key, outcome);
    }
    if Told(s', key, outcome) {
      var q :| q in s'.deliveries && s'.deliveries[q] == Finished(key, outcome);
      assert q != p ==> q in s.deliveries && s.deliveries[q] == Finished(key, outcome);
    }
  }

  lemma StepTruthful(s: State, l: Label)
    requires Enabled(s, l) && Truthful(s)
    ensures Truthful(Step(s, l))
  {
    var s' := Step(s, l);
    forall k ensures k in s'.applied <==> Told(s', k, Applied) {
      ToldMoves(s, s', l.p, k, Applied);
    }
    forall k ensures k in s'.stuck <==> Told(s', k, ApplyAndReleaseFailed) {
      ToldMoves(s, s', l.p, k, ApplyAndReleaseFailed);
    }
  }

  lemma StepToldOnce(s: State, l: Label)
    requires Enabled(s, l) && Invariant(s) && Truthful(s) && ToldOnce(s)
    ensures ToldOnce(Step(s, l))
  {
    var s' := Step(s, l);
    if l.ApplyOk? {
      var k := s.deliveries[l.p].key;
      assert k !in s.applied;
      assert !Told(s, k, Applied);
    }
  }

  // In every interleaving what the deliveries were told is true.
  lemma {:induction false} OutcomesAreTrue(ls: seq<Label>)
    ensures Truthful(Run(ls)) && ToldOnce(Run(ls))
  {
    if ls == [] {
    } else {
      OutcomesAreTrue(ls[..|ls| - 1]);
      ClaimsAreExact(ls[..|ls| - 1]);
      var s := Run(ls[..|ls| - 1]);
      if Enabled(s, ls[|ls| - 1]) {
        StepTruthful(s, ls[|ls| - 1]);
        StepToldOnce(s, ls[|ls| - 1]);
      }
    }
  }

  // A message that does not decode is answered at once and touches no claim; one that does waits for its claim.
  lemma MalformedTouchesNothing(s: State, p: nat, msg: Message)
    requires p !in s.deliveries
    ensures var s' := Step(s, Deliver(p, msg));
            && s'.claimed == s.claimed && s'.applied == s.applied
            && (s'.deliveries[p].Finished? <==>
                  || msg.idempotencyKey == "" || msg.envelope.None? || msg.envelope.value.version != 1
                  || msg.envelope.value.payload.None?)
  {
  }

  // nil does not mean applied: the second delivery is told nil while the first is still to fail.
  lemma NilBeforeApplied(o: Order)
    ensures var msg := Message("k", Some(Envelope(1, Some(o))));
            var s := Run([Deliver(0, msg), Claim(0), Deliver(1, msg), Claim(1), ApplyErr(0), Release(0)]);
            && 1 in s.deliveries && s.deliveries[1] == Finished("k", Duplicate) && IsNil(s.deliveries[1].outcome)
            && 0 in s.deliveries && s.deliveries[0] == Finished("k", ApplyFailed)
            && s.applied == [] && s.claimed == {}
  {
    var msg := Message("k", Some(Envelope(1, Some(o))));
    var ls := [Deliver(0, msg), Claim(0), Deliver(1, msg), Claim(1), ApplyErr(0), Release(0)];
    assert Decode(msg) == Decoded.Order("k", o);
    var s1 := Step(Init(), ls[0]);
    var s2 := Step(s1, ls[1]);
    var s3 := Step(s2, ls[2]);
    var s4 := Step(s3, ls[3]);
    var s5 := Step(s4, ls[4]);
    assert ls[..5][..4] == ls[..4] && ls[..4][..3] == ls[..3] && ls[..3][..2] == ls[..2];
    assert ls[..2][..1] == ls[..1] && ls[..1][..0] == [];
    assert Run(ls[..1]) == s1;
    assert Run(ls[..2]) == s2;
    assert Run(ls[..3]) == s3;
    assert Run(ls[..4]) == s4;
    assert Run(ls[..5]) == s5;
    assert Run(ls) == Step(s5, ls[5]);
    assert s5.claimed - {"k"} == {};
  }
}
