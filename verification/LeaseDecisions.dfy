/**
 What the lease pool decides, said in terms of the slot, the answer and the
 clock: which slots must rotate and why, what a plan puts in each place, what
 an answer leaves in the view, and when a lease is renewed.
 */
module LeaseDecisions {
  import opened Prelude
  import opened Authorizations
  import opened LeaseSlots
  import opened LeasePools
  import opened LeaseRuns

  // ------------------------------------------------------------ reasons

  /** From then on nobody may be given this slot. */
  function WindowEnd(s: Slot, remote: Option<RemoteView>): int
  {
    s.validUntil - if remote.Some? then remote.value.minRemaining else 600
  }

  /** The control plane holds this very generation, in this state. */
  predicate HeldAs(s: Slot, remote: Option<RemoteView>, state: string)
  {
    && remote.Some? && s.slot in remote.value.slots
    && remote.value.slots[s.slot].generation == s.generation && remote.value.slots[s.slot].state == state
  }

  predicate Revoked(s: Slot, remote: Option<RemoteView>, urgently: bool)
  {
    HeldAs(s, remote, "revoked") && remote.value.slots[s.slot].urgent == urgently
  }

  /** Never given out, and too late to be. */
  predicate Stranded(s: Slot, remote: Option<RemoteView>, now: int)
  {
    !s.reported && WindowEnd(s, remote) <= now
  }

  predicate Reason(s: Slot, remote: Option<RemoteView>, now: int, why: Why)
  {
    match why
    case Expired => s.validUntil <= now
    case Urgent => now < s.validUntil && !Stranded(s, remote, now) && Revoked(s, remote, true)
    case Deferrable =>
      && now < s.validUntil
      && (|| Stranded(s, remote, now) || Revoked(s, remote, false)
          || (HeldAs(s, remote, "active") && WindowEnd(s, remote) <= remote.value.asOf))
  }

  lemma ReasonIff(s: Slot, remote: Option<RemoteView>, now: int, why: Why)
    ensures WhyRotate(s, remote, now) == Some(why) <==> Reason(s, remote, now, why)
  {}

  predicate SomeReason(slots: seq<Slot>, remote: Option<RemoteView>, now: int, why: Why)
  {
    exists i :: 0 <= i < |slots| && Reason(slots[i], remote, now, why)
  }

  /** Some slot of this number has one of the reasons. */
  predicate Pending(slots: seq<Slot>, remote: Option<RemoteView>, now: int, number: nat)
  {
    exists i, why :: 0 <= i < |slots| && slots[i].slot == number && Reason(slots[i], remote, now, why)
  }

  /** A slot is a candidate for a reason if and only if it has it. */
  lemma CandidatesIff(slots: seq<Slot>, remote: Option<RemoteView>, now: int, number: nat, why: Why)
    ensures (number, why) in RotationCandidates(slots, remote, now) <==>
            exists i :: 0 <= i < |slots| && slots[i].slot == number && Reason(slots[i], remote, now, why)
  {
    CandidatesMembers(slots, remote, now, (number, why));
    forall i | 0 <= i < |slots|
      ensures WhyRotate(slots[i], remote, now) == Some(why) <==> Reason(slots[i], remote, now, why)
    {
      ReasonIff(slots[i], remote, now, why);
    }
  }

  lemma SomeReasonIff(slots: seq<Slot>, remote: Option<RemoteView>, now: int, why: Why)
    ensures SomeWhy(slots, remote, now, why) <==> SomeReason(slots, remote, now, why)
  {
    forall i | 0 <= i < |slots|
      ensures WhyRotate(slots[i], remote, now) == Some(why) <==> Reason(slots[i], remote, now, why)
    {
      ReasonIff(slots[i], remote, now, why);
    }
  }

  lemma PendingIff(slots: seq<Slot>, remote: Option<RemoteView>, now: int, number: nat)
    ensures NumberRotates(slots, remote, now, number) <==> Pending(slots, remote, now, number)
  {
    if NumberRotates(slots, remote, now, number) {
      var i :| 0 <= i < |slots| && slots[i].slot == number && WhyRotate(slots[i], remote, now).Some?;
      ReasonIff(slots[i], remote, now, WhyRotate(slots[i], remote, now).value);
    }
    if Pending(slots, remote, now, number) {
      var i, why :| 0 <= i < |slots| && slots[i].slot == number && Reason(slots[i], remote, now, why);
      ReasonIff(slots[i], remote, now, why);
    }
  }

  /**
   The batching decision, for any list of slots: a number rotates if and only
   if a slot of it is pending and some slot, of any number, is expired or
   urgently revoked, or a boundary has passed since the last rotation.
   */
  lemma RotatesIff(state: LeaseState, remote: Option<RemoteView>, now: int, grid: int, number: nat)
    requires grid > 0
    ensures number in SlotsToRotate(state, remote, now, grid) <==>
            && Pending(state.slots, remote, now, number)
            && (|| SomeReason(state.slots, remote, now, Expired) || SomeReason(state.slots, remote, now, Urgent)
                || now / grid > state.lastRotationAt / grid)
  {
    RotationRule(state, remote, now, grid);
    PendingIff(state.slots, remote, now, number);
    SomeReasonIff(state.slots, remote, now, Expired);
    SomeReasonIff(state.slots, remote, now, Urgent);
    SomeReasonIff(state.slots, remote, now, Deferrable);
    if Pending(state.slots, remote, now, number) {
      var i, why :| 0 <= i < |state.slots| && state.slots[i].slot == number
                    && Reason(state.slots[i], remote, now, why);
      assert SomeReason(state.slots, remote, now, why);
    }
  }

  // -------------------------------------------------------------- plans

  /** The last grid point that is not after `t`. */
  predicate GridFloor(e: int, t: int, grid: int)
    requires grid > 0
  {
    e % grid == 0 && e <= t < e + grid
  }

  lemma RoundDownIsFloor(t: int, grid: int)
    requires grid > 0
    ensures GridFloor(RoundDown(t, grid), t, grid)
  {
    RoundDownFacts(t, grid);
    MultipleRemainder(t / grid, grid);
  }

  lemma MultipleRemainder(q: int, grid: int)
    requires grid > 0
    ensures (q * grid) % grid == 0
  {
    DivUnique(q * grid, grid, q);
  }

  lemma GridFloorUnique(e: int, f: int, t: int, grid: int)
    requires grid > 0 && GridFloor(e, t, grid) && GridFloor(f, t, grid)
    ensures e == f
  {
    assert e == (e / grid) * grid && f == (f / grid) * grid;
    DivUnique(t, grid, e / grid);
    DivUnique(t, grid, f / grid);
  }

  /** A credential made just now: the drawn secrets, a whole lifetime floored onto the grid, and no marks. */
  predicate MadeNow(s: Slot, now: int, pol: Policy, draw: Secrets)
    requires pol.grid > 0
  {
    && s.credentialId == draw.credentialId && s.vlessUuid == draw.vlessUuid
    && s.hysteria2Password == draw.hysteria2Password && s.cls == Native
    && s.validFrom == now && GridFloor(s.validUntil, now + pol.lifetime, pol.grid) && !s.revoked && !s.reported
  }

  /** What place `i` holds after a plan: its slot untouched, its next generation, or a first one. */
  predicate PlacedBy(s: Slot, slots: seq<Slot>, i: nat, rotates: bool, now: int, pol: Policy, draw: Secrets)
    requires pol.grid > 0
  {
    s.slot == i &&
    if i >= |slots| then MadeNow(s, now, pol, draw) && s.generation == 1 && s.principalId == draw.principalId
    else if rotates
    then && MadeNow(s, now, pol, draw)
         && s.generation == slots[i].generation + 1 && s.principalId == slots[i].principalId
    else s == slots[i]
  }

  /** Slot `i` of the pool rotates at this plan. */
  ghost predicate RotatesHere(r: Run, k: nat, i: nat)
    requires Valid(r) && k < |r.steps| && r.steps[k].PlanStep? && i < |r.nodes[k].state.slots|
  {
    var n, now := r.nodes[k], r.steps[k].now;
    && (exists why :: Reason(n.state.slots[i], n.remote, now, why))
    && (|| SomeReason(n.state.slots, n.remote, now, Expired) || SomeReason(n.state.slots, n.remote, now, Urgent)
        || now / r.pol.grid > n.state.lastRotationAt / r.pol.grid)
  }

  lemma RotatesHereIff(r: Run, k: nat, i: nat)
    requires Valid(r) && k < |r.steps| && r.steps[k].PlanStep? && i < |r.nodes[k].state.slots|
    ensures i in RotatingAt(r.nodes[k], r.pol, r.steps[k].now) <==> RotatesHere(r, k, i)
  {
    var n, now := r.nodes[k], r.steps[k].now;
    PoolAlwaysOk(r, k);
    RotatesIff(n.state, n.remote, now, r.pol.grid, i);
    assert n.state.slots[i].slot == i;
    if Pending(n.state.slots, n.remote, now, i) {
      var j, why :| 0 <= j < |n.state.slots| && n.state.slots[j].slot == i
                    && Reason(n.state.slots[j], n.remote, now, why);
      assert j == i;
    }
  }

  lemma MintMadeNow(slot: nat, generation: nat, now: int, pol: Policy, draw: Secrets)
    requires pol.grid > 0
    ensures MadeNow(Mint(slot, generation, now, pol, draw), now, pol, draw)
  {
    RoundDownIsFloor(now + pol.lifetime, pol.grid);
  }

  /**
   At every plan of every run, place by place: the pool has the configured
   size, or 1024 if that is less, a slot rotates exactly by the rule above, the rest stay as they are
   and missing ones are made.
   */
  lemma PlanPlaces(r: Run, k: nat, i: nat)
    requires Valid(r) && k < |r.steps| && r.steps[k].PlanStep? && i < PoolSize(r.pol)
    ensures var n, m, step := r.nodes[k], r.nodes[k + 1], r.steps[k];
            && |m.state.slots| == PoolSize(r.pol) == (if r.pol.size < 1024 then r.pol.size else 1024)
            && PlacedBy(m.state.slots[i], n.state.slots, i, i < |n.state.slots| && RotatesHere(r, k, i),
                        step.now, r.pol, step.draw(i))
  {
    var n, step := r.nodes[k], r.steps[k];
    PoolAlwaysOk(r, k);
    PlanFacts(n, r.pol, step.now, step.draw);
    MintMadeNow(i, 1, step.now, r.pol, step.draw(i));
    if i < |n.state.slots| {
      RotatesHereIff(r, k, i);
      MintMadeNow(i, n.state.slots[i].generation + 1, step.now, r.pol, step.draw(i));
    }
  }

  /** The stamp moves exactly when something rotates, and the pool is to be applied exactly when something changed. */
  lemma PlanStamps(r: Run, k: nat)
    requires Valid(r) && k < |r.steps| && r.steps[k].PlanStep?
    ensures var n, m := r.nodes[k], r.nodes[k + 1];
            var rotates := exists i :: 0 <= i < |n.state.slots| && RotatesHere(r, k, i);
            && m.state.lastRotationAt == (if rotates then r.steps[k].now else n.state.lastRotationAt)
            && (m.state.applied <==> n.state.applied && !rotates && |n.state.slots| == PoolSize(r.pol))
  {
    var n, step := r.nodes[k], r.steps[k];
    PoolAlwaysOk(r, k);
    PlanFacts(n, r.pol, step.now, step.draw);
    RotationRuleInOrder(n.state, n.remote, step.now, r.pol.grid);
    var rotate := RotatingAt(n, r.pol, step.now);
    forall i | 0 <= i < |n.state.slots| ensures i in rotate <==> RotatesHere(r, k, i) { RotatesHereIff(r, k, i); }
    if rotate != [] { assert rotate[0] in rotate; }
  }

  // ------------------------------------------- revocations do not linger

  /** The view revokes this generation. */
  predicate RevokesGeneration(view: RemoteView, slot: nat, generation: nat)
  {
    Stored(view, slot, generation) && view.slots[slot].state == "revoked"
  }

  /**
   After every plan of every run, no generation that the answer last read was
   about and urgently revoked is left in the pool; and one that it revoked
   without urgency is left only by a plan that rotated nothing before the next
   boundary.
   */
  lemma NoRevokedLeft(r: Run, k: nat, i: nat)
    requires Valid(r) && k < |r.steps| && r.steps[k].PlanStep? && r.nodes[k].remote.Some?
    requires i < |r.nodes[MarkedAt(r.steps, k)].state.slots| && i < |r.nodes[k + 1].state.slots|
    requires r.nodes[MarkedAt(r.steps, k)].state.slots[i].generation == r.nodes[k + 1].state.slots[i].generation
    requires RevokesGeneration(r.nodes[k].remote.value, i, r.nodes[k + 1].state.slots[i].generation)
    ensures !r.nodes[k].remote.value.slots[i].urgent
    ensures forall j :: 0 <= j < |r.nodes[k].state.slots| ==> !RotatesHere(r, k, j)
    ensures r.steps[k].now / r.pol.grid <= r.nodes[k].state.lastRotationAt / r.pol.grid
  {
    var n, m, step := r.nodes[k], r.nodes[k + 1], r.steps[k];
    var was := r.nodes[MarkedAt(r.steps, k)].state.slots;
    MarksAlwaysKept(r, k);
    PoolAlwaysOk(r, k);
    PoolAlwaysOk(r, k + 1);
    PlanPlaces(r, k, i);
    KeptMarkIsReported(r, k, i);
    var s := n.state.slots[i];
    ReasonWhenRevoked(s, n.remote, step.now);
  }

  lemma KeptMarkIsReported(r: Run, k: nat, i: nat)
    requires Valid(r) && k <= |r.steps| && r.nodes[k].remote.Some?
    requires i < |r.nodes[MarkedAt(r.steps, k)].state.slots| && i < |r.nodes[k].state.slots|
    requires r.nodes[MarkedAt(r.steps, k)].state.slots[i].generation == r.nodes[k].state.slots[i].generation
    requires RevokesGeneration(r.nodes[k].remote.value, i, r.nodes[k].state.slots[i].generation)
    ensures r.nodes[k].state.slots[i].reported
  {
    var was := r.nodes[MarkedAt(r.steps, k)].state.slots;
    MarksAlwaysKept(r, k);
    HeardMarks(r, k, i);
    assert MarkKept(was, r.nodes[k].state.slots[i], i);
  }

  lemma ReasonWhenRevoked(s: Slot, remote: Option<RemoteView>, now: int)
    requires remote.Some? && s.reported && RevokesGeneration(remote.value, s.slot, s.generation)
    ensures Reason(s, remote, now, Expired) || Reason(s, remote, now, Urgent) || Reason(s, remote, now, Deferrable)
    ensures remote.value.slots[s.slot].urgent ==> Reason(s, remote, now, Expired) || Reason(s, remote, now, Urgent)
  {}

  // ------------------------------------------------------------ answers

  /** A complete item, for this slot number once cut to 32 bits. */
  predicate For(item: SyncItem, number: nat)
  {
    item.slot.Some? && item.generation.Some? && item.state.Some? && item.slot.value % 0x1_0000_0000 == number
  }

  /** Item `j` is the last one for this number. */
  ghost predicate LastFor(items: seq<SyncItem>, number: nat, j: nat)
  {
    j < |items| && For(items[j], number) && forall m :: j < m < |items| ==> !For(items[m], number)
  }

  /** The view keeps what an item says. */
  predicate KeepsItem(rs: RemoteSlot, item: SyncItem)
  {
    && item.generation == Some(rs.generation) && item.state == Some(rs.state) && rs.urgent == item.urgent
    && rs.extendTo == if item.extend.ExtendAt? then Some(item.extend.at) else None
  }

  lemma {:induction false} RemoteSlotsHold(items: seq<SyncItem>, number: nat)
    ensures number in RemoteSlots(items) <==> exists j: nat :: LastFor(items, number, j)
    ensures forall j: nat :: LastFor(items, number, j) ==> KeepsItem(RemoteSlots(items)[number], items[j])
  {
    if items != [] {
      var n := |items| - 1;
      var rest := items[..n];
      RemoteSlotsHold(rest, number);
      if For(items[n], number) {
        assert LastFor(items, number, n);
      } else {
        forall j: nat ensures LastFor(items, number, j) <==> LastFor(rest, number, j) {
          LastForRest(items, number, j);
        }
        assert forall j: nat :: LastFor(items, number, j) ==> rest[j] == items[j];
      }
    }
  }

  lemma LastForRest(items: seq<SyncItem>, number: nat, j: nat)
    requires items != [] && !For(items[|items| - 1], number)
    ensures LastFor(items, number, j) <==> LastFor(items[..|items| - 1], number, j)
  {
    var rest := items[..|items| - 1];
    assert forall m :: 0 <= m < |rest| ==> rest[m] == items[m];
  }

  /**
   The view after an answer holds, for each slot number, exactly the fields of
   the last complete item for it; an answer is read unless it lacks its time
   or a complete item has a bad date.
   */
  lemma ViewHoldsAnswer(a: SyncAnswer, number: nat)
    requires a.asOf.Some?
    ensures var view := ViewOf(a);
            && view.asOf == a.asOf.value
            && view.minRemaining == (if a.minRemaining.Some? then a.minRemaining.value else 600)
            && (number in view.slots <==> exists j: nat :: LastFor(a.items, number, j))
            && forall j: nat :: LastFor(a.items, number, j) ==> KeepsItem(view.slots[number], a.items[j])
  {
    RemoteSlotsHold(a.items, number);
  }

  /** A lease extended for this very generation, and the end it moves to: the last grid point within both limits. */
  predicate Renews(item: SyncItem, s: Slot, later: int, pol: Policy, end: int)
    requires pol.grid > 0
  {
    && item.generation == Some(s.generation) && item.state == Some("leased") && item.extend.ExtendAt?
    && later < s.validUntil < end && GridFloor(end, Min(item.extend.at, later + pol.lifetime), pol.grid)
  }

  lemma ExtensionIff(s: Slot, view: RemoteView, item: SyncItem, later: int, pol: Policy, end: int)
    requires pol.grid > 0 && s.slot in view.slots && KeepsItem(view.slots[s.slot], item)
    ensures Extension(s, view, later, pol) == Some(end) <==> Renews(item, s, later, pol, end)
  {
    if item.extend.ExtendAt? {
      var t := Min(item.extend.at, later + pol.lifetime);
      DivMonotone(t, item.extend.at, pol.grid);
      DivMonotone(t, later + pol.lifetime, pol.grid);
      MinFloor(item.extend.at, later + pol.lifetime, pol.grid);
      RoundDownIsFloor(t, pol.grid);
      if GridFloor(end, t, pol.grid) { GridFloorUnique(end, RoundDown(t, pol.grid), t, pol.grid); }
    }
  }

  lemma MinFloor(a: int, b: int, grid: int)
    requires grid > 0
    ensures Min(RoundDown(a, grid), RoundDown(b, grid)) == RoundDown(Min(a, b), grid)
  {
    FloorMonotone(Min(a, b), Max(a, b), grid);
  }

  lemma FloorMonotone(a: int, b: int, grid: int)
    requires grid > 0 && a <= b
    ensures RoundDown(a, grid) <= RoundDown(b, grid)
  {
    DivMonotone(a, b, grid);
    if a / grid < b / grid { NextMultiple(a / grid, b / grid, grid); }
  }

  /** The answer can be read and the last item for this slot renews it to `end`. */
  ghost predicate AnswerRenews(answer: SyncAnswer, s: Slot, later: int, pol: Policy, end: int)
    requires pol.grid > 0
  {
    AnswerReadable(answer)
    && exists j: nat :: LastFor(answer.items, s.slot, j) && Renews(answer.items[j], s, later, pol, end)
  }

  /** The answer can be read and the last item for this slot is about this generation, in this state if one is given. */
  ghost predicate AnswerKnows(answer: SyncAnswer, s: Slot, state: Option<string>)
  {
    AnswerReadable(answer)
    && exists j: nat :: LastFor(answer.items, s.slot, j) && answer.items[j].generation == Some(s.generation)
                        && (state.Some? ==> answer.items[j].state == state)
  }

  lemma ViewRenewsIff(s: Slot, answer: SyncAnswer, later: int, pol: Policy, end: int)
    requires pol.grid > 0 && AnswerReadable(answer)
    ensures Extension(s, ViewOf(answer), later, pol) == Some(end) <==> AnswerRenews(answer, s, later, pol, end)
  {
    var view := ViewOf(answer);
    ViewHoldsAnswer(answer, s.slot);
    if s.slot in view.slots {
      var j: nat :| LastFor(answer.items, s.slot, j);
      ExtensionIff(s, view, answer.items[j], later, pol, end);
      LastForUnique(answer.items, s.slot);
    }
  }

  lemma LastForUnique(items: seq<SyncItem>, number: nat)
    ensures forall i: nat, j: nat :: LastFor(items, number, i) && LastFor(items, number, j) ==> i == j
  {}

  lemma ViewKnowsIff(s: Slot, answer: SyncAnswer)
    requires AnswerReadable(answer)
    ensures MarkSlot(s, ViewOf(answer)).reported <==> AnswerKnows(answer, s, None)
    ensures MarkSlot(s, ViewOf(answer)).revoked <==> AnswerKnows(answer, s, Some("revoked"))
  {
    ViewHoldsAnswer(answer, s.slot);
    LastForUnique(answer.items, s.slot);
  }

  /**
   A sync step, slot by slot. The end of a slot moves if and only if the
   answer renews it: the last item for it extends a lease of that generation,
   whose end is still ahead, and the end moves on to the last grid point within
   the extension and a lifetime from now, with the start moved to now. It is
   marked stored, and revoked, exactly as that item has it. Nothing else about
   it changes, and an answer that cannot be read changes nothing.
   */
  lemma SyncedSlot(n: Node, pol: Policy, later: int, answer: SyncAnswer, saved: bool, i: nat)
    requires PolicyOk(pol) && i < |n.state.slots|
    ensures |Next(n, pol, SyncStep(later, answer, saved)).state.slots| == |n.state.slots|
    ensures var s, t := n.state.slots[i], Next(n, pol, SyncStep(later, answer, saved)).state.slots[i];
            && (t.validUntil != s.validUntil <==> exists end :: AnswerRenews(answer, s, later, pol, end))
            && (if t.validUntil != s.validUntil
                then AnswerRenews(answer, s, later, pol, t.validUntil) && t.validFrom == later
                else t.validFrom == s.validFrom)
            && (if AnswerReadable(answer)
                then && (t.reported <==> AnswerKnows(answer, s, None))
                     && (t.revoked <==> AnswerKnows(answer, s, Some("revoked")))
                else t == s)
            && t == s.(validFrom := t.validFrom, validUntil := t.validUntil, reported := t.reported,
                       revoked := t.revoked)
  {
    if AnswerReadable(answer) {
      var s, view := n.state.slots[i], ViewOf(answer);
      var marked := MarkSlot(s, view);
      SyncFacts(n, pol, later, view);
      ViewKnowsIff(s, answer);
      var e := Extension(marked, view, later, pol);
      if e.Some? {
        ViewRenewsIff(marked, answer, later, pol, e.value);
        RenewedIsLeased(marked, answer, later, pol, e.value);
      }
      forall end | AnswerRenews(answer, s, later, pol, end) ensures e == Some(end) {
        ViewRenewsIff(marked, answer, later, pol, end);
        SameRenewal(s, marked, answer, later, pol, end);
      }
      if e.Some? { SameRenewal(s, marked, answer, later, pol, e.value); }
    }
  }

  /** And the rest of the state: the pool is to be applied again exactly when an end moved. */
  lemma SyncedState(n: Node, pol: Policy, later: int, answer: SyncAnswer, saved: bool)
    requires PolicyOk(pol)
    ensures var m := Next(n, pol, SyncStep(later, answer, saved));
            && |m.state.slots| == |n.state.slots| && m.state.lastRotationAt == n.state.lastRotationAt
            && (m.state.applied <==> n.state.applied && forall i :: 0 <= i < |n.state.slots| ==>
                 m.state.slots[i].validUntil == n.state.slots[i].validUntil)
            && m.disk == (if saved && m.state != n.state then m.state else n.disk) && m.clock == later
            && m.remote == (if AnswerReadable(answer) then Some(ViewOf(answer)) else n.remote)
  {
    if AnswerReadable(answer) {
      var view := ViewOf(answer);
      var marked := Marked(n.state, view);
      SyncFacts(n, pol, later, view);
      CountExtendedZero(marked.slots, view, later, pol);
      forall i | 0 <= i < |n.state.slots|
        ensures SyncOf(n, pol, later, view).slots[i].validUntil != n.state.slots[i].validUntil
           <==> Extension(marked.slots[i], view, later, pol).Some?
      {}
    }
  }

  lemma SameRenewal(s: Slot, t: Slot, answer: SyncAnswer, later: int, pol: Policy, end: int)
    requires pol.grid > 0 && t == s.(reported := t.reported, revoked := t.revoked)
    ensures AnswerRenews(answer, s, later, pol, end) <==> AnswerRenews(answer, t, later, pol, end)
  {}

  /** What is renewed was leased, so it was not revoked. */
  lemma RenewedIsLeased(s: Slot, answer: SyncAnswer, later: int, pol: Policy, end: int)
    requires pol.grid > 0 && AnswerRenews(answer, s, later, pol, end)
    ensures !AnswerKnows(answer, s, Some("revoked"))
  {
    LastForUnique(answer.items, s.slot);
  }
}
