/**
 The quantitative promise of the lease pool: at most one rotation per batch
 window plus one per urgent revocation, over every run and every view the
 control plane may report.
 */
module RotationBound {
  import opened Prelude
  import opened LeaseSlots
  import opened LeasePools
  import opened LeaseRuns
  import opened LeaseTicks
  import opened LeaseDurability
  import opened LeaseForks

  ghost predicate RotatesAt(r: Run, k: nat)
    requires Valid(r) && k < |r.steps|
  {
    r.steps[k].PlanStep? && RotatingAt(r.nodes[k], r.pol, r.steps[k].now) != []
  }

  ghost predicate UrgentAt(r: Run, k: nat)
    requires Valid(r) && k < |r.steps|
  {
    r.steps[k].PlanStep? && SomeWhy(r.nodes[k].state.slots, r.nodes[k].remote, r.steps[k].now, Urgent)
  }

  ghost predicate InWindow(r: Run, k: nat, w: int)
    requires Valid(r) && k < |r.steps|
  {
    r.steps[k].PlanStep? && r.steps[k].now / r.pol.grid == w
  }

  /** Rotations among the first `k` steps that fall in window `w`; likewise below. */
  ghost function Rotations(r: Run, k: nat, w: int): nat
    requires Valid(r) && k <= |r.steps|
  {
    if k == 0 then 0
    else Rotations(r, k - 1, w) + if InWindow(r, k - 1, w) && RotatesAt(r, k - 1) then 1 else 0
  }

  ghost function UrgentTicks(r: Run, k: nat, w: int): nat
    requires Valid(r) && k <= |r.steps|
  {
    if k == 0 then 0
    else UrgentTicks(r, k - 1, w) + if InWindow(r, k - 1, w) && UrgentAt(r, k - 1) then 1 else 0
  }

  /** The slot generations urgently revoked at a plan step of window `w`. */
  ghost function UrgentNow(n: Node, now: int): set<(nat, nat)>
  {
    set i | 0 <= i < |n.state.slots| && WhyRotate(n.state.slots[i], n.remote, now) == Some(Urgent)
      :: (i, n.state.slots[i].generation)
  }

  ghost function UrgentRevocations(r: Run, k: nat, w: int): set<(nat, nat)>
    requires Valid(r) && k <= |r.steps|
  {
    if k == 0 then {}
    else UrgentRevocations(r, k - 1, w)
         + if InWindow(r, k - 1, w) then UrgentNow(r.nodes[k - 1], r.steps[k - 1].now) else {}
  }

  // ------------------------------------------- one settled window state

  /** Rotated in window `w`, and nothing in the pool ends in it. */
  ghost predicate Settled(st: LeaseState, grid: int, w: int)
    requires grid > 0
  {
    st.lastRotationAt / grid == w
    && forall i :: 0 <= i < |st.slots| ==> w < st.slots[i].validUntil / grid
  }

  /** Memory holds a slot, or a generation of one, that the file does not. */
  predicate Outrun(n: Node)
  {
    Outruns(n.state.slots, n.disk.slots)
  }

  predicate Outruns(memory: seq<Slot>, file: seq<Slot>)
  {
    exists i :: 0 <= i < |memory| && (i >= |file| || file[i].generation < memory[i].generation)
  }

  /** Step `k` is a crash in window `w` that forgets a rotation which had settled the window. */
  ghost predicate UndoneAt(r: Run, k: nat, w: int)
    requires Valid(r) && k < |r.steps|
  {
    var n := r.nodes[k];
    && r.steps[k].Restart? && n.clock / r.pol.grid == w
    && Settled(n.state, r.pol.grid, w) && !Settled(n.disk, r.pol.grid, w) && Outrun(n)
  }

  ghost function Undone(r: Run, k: nat, w: int): nat
    requires Valid(r) && k <= |r.steps|
  {
    if k == 0 then 0 else Undone(r, k - 1, w) + if UndoneAt(r, k - 1, w) then 1 else 0
  }

  /** Nothing more can be forced by the clock in `w` short of such a crash. */
  ghost predicate Quiet(n: Node, grid: int, w: int)
    requires grid > 0
  {
    w < n.clock / grid
    || (n.clock / grid == w && Settled(n.state, grid, w) && (Settled(n.disk, grid, w) || Outrun(n)))
  }

  /** In a settled window only an urgent revocation rotates. */
  lemma SettledRotatesOnlyUrgent(n: Node, pol: Policy, now: int, w: int)
    requires PolicyOk(pol) && PoolOk(n.state, pol)
    requires Settled(n.state, pol.grid, w) && now / pol.grid == w && RotatingAt(n, pol, now) != []
    ensures SomeWhy(n.state.slots, n.remote, now, Urgent)
  {
    RotationRuleInOrder(n.state, n.remote, now, pol.grid);
    if SomeWhy(n.state.slots, n.remote, now, Expired) {
      var i :| 0 <= i < |n.state.slots| && WhyRotate(n.state.slots[i], n.remote, now) == Some(Expired);
      DivMonotone(n.state.slots[i].validUntil, now, pol.grid);
      assert false;
    }
  }

  /** What a plan in window `w` leaves: ends beyond the window, and the stamp if it rotated. */
  lemma PlanSettles(n: Node, pol: Policy, now: int, draw: nat -> Secrets, w: int)
    requires PolicyOk(pol) && PoolOk(n.state, pol) && now / pol.grid == w
    requires RotatingAt(n, pol, now) != [] || n.state.lastRotationAt / pol.grid == w
    ensures Settled(PlanOf(n, pol, now, draw).0, pol.grid, w)
  {
    var next := PlanOf(n, pol, now, draw).0;
    PlanFacts(n, pol, now, draw);
    forall i | 0 <= i < |next.slots| ensures w < next.slots[i].validUntil / pol.grid {
      PlannedEndsLater(n, pol, now, draw, i);
    }
  }

  lemma PlannedEndsLater(n: Node, pol: Policy, now: int, draw: nat -> Secrets, i: nat)
    requires PolicyOk(pol) && PoolOk(n.state, pol)
    ensures now / pol.grid < PlannedSlot(n.state.slots, i, AskedAt(n, pol, now, draw)).validUntil / pol.grid
  {
    PlannedNotExpired(n, pol, now, draw, i);
    RoundDownFacts(now + pol.lifetime, pol.grid);
    var s := PlannedSlot(n.state.slots, i, AskedAt(n, pol, now, draw));
    assert OnGrid(s.validUntil, pol.grid);
    GridPointAfter(s.validUntil, now, pol.grid);
  }

  lemma SyncStaysSettled(n: Node, pol: Policy, later: int, view: RemoteView, w: int)
    requires PolicyOk(pol) && Settled(n.state, pol.grid, w)
    ensures Settled(SyncOf(n, pol, later, view), pol.grid, w)
  {
    SyncFacts(n, pol, later, view);
    var next := SyncOf(n, pol, later, view);
    forall i | 0 <= i < |next.slots| ensures w < next.slots[i].validUntil / pol.grid {
      DivMonotone(n.state.slots[i].validUntil, next.slots[i].validUntil, pol.grid);
    }
  }

  lemma OutrunStays(n: Node, m: Node)
    requires Outrun(n) && m.disk == n.disk && PoolEvolves(n.state.slots, m.state.slots)
    ensures Outrun(m)
  {
    var memory, file := n.state.slots, n.disk.slots;
    var i :| 0 <= i < |memory| && (i >= |file| || file[i].generation < memory[i].generation);
    assert Evolves(memory[i], m.state.slots[i]);
  }

  lemma QuietPlan(n: Node, pol: Policy, step: Step, w: int)
    requires PolicyOk(pol) && PoolOk(n.state, pol) && step.PlanStep? && step.now / pol.grid == w
    requires Settled(n.state, pol.grid, w) && (Settled(n.disk, pol.grid, w) || Outrun(n))
    ensures Quiet(Next(n, pol, step), pol.grid, w)
  {
    var m := Next(n, pol, step);
    PlanSettles(n, pol, step.now, step.draw, w);
    if m.disk == n.disk && Outrun(n) {
      PlanEvolves(n, pol, step.now, step.draw);
      OutrunStays(n, m);
    }
  }

  lemma QuietSync(n: Node, pol: Policy, step: Step, w: int)
    requires PolicyOk(pol) && step.SyncStep? && step.later / pol.grid == w
    requires Settled(n.state, pol.grid, w) && (Settled(n.disk, pol.grid, w) || Outrun(n))
    ensures Quiet(Next(n, pol, step), pol.grid, w)
  {
    var m := Next(n, pol, step);
    if AnswerReadable(step.answer) {
      SyncStaysSettled(n, pol, step.later, ViewOf(step.answer), w);
      if m.disk == n.disk && Outrun(n) {
        SyncEvolves(n, pol, step.later, ViewOf(step.answer));
        OutrunStays(n, m);
      }
    }
  }

  lemma QuietOther(r: Run, k: nat, w: int)
    requires Valid(r) && k < |r.steps| && !r.steps[k].PlanStep? && !r.steps[k].SyncStep? && Inv(r.nodes[k], r.pol)
    requires Quiet(r.nodes[k], r.pol.grid, w) && !UndoneAt(r, k, w)
    ensures Quiet(r.nodes[k + 1], r.pol.grid, w)
  {
    match r.steps[k]
    case Restart(load) => LoadIsIdentity(r.nodes[k].disk, r.pol, load);
    case _ =>
  }

  lemma QuietStays(r: Run, k: nat, w: int)
    requires Valid(r) && k < |r.steps| && Quiet(r.nodes[k], r.pol.grid, w) && !UndoneAt(r, k, w)
    ensures Quiet(r.nodes[k + 1], r.pol.grid, w)
  {
    var n, m, step := r.nodes[k], r.nodes[k + 1], r.steps[k];
    PoolAlwaysOk(r, k);
    ClockAdvances(r, k, k + 1);
    DivMonotone(n.clock, m.clock, r.pol.grid);
    if m.clock / r.pol.grid == w {
      if step.PlanStep? {
        QuietPlan(n, r.pol, step, w);
      } else if step.SyncStep? {
        QuietSync(n, r.pol, step, w);
      } else {
        QuietOther(r, k, w);
      }
    }
  }

  lemma RotationOutruns(n: Node, pol: Policy, now: int, draw: nat -> Secrets)
    requires PolicyOk(pol) && PoolOk(n.state, pol) && FileNotAhead(n) && RotatingAt(n, pol, now) != []
    ensures Outrun(Next(n, pol, PlanStep(now, draw, false)))
  {
    var m := Next(n, pol, PlanStep(now, draw, false));
    PlanFacts(n, pol, now, draw);
    RotationRuleInOrder(n.state, n.remote, now, pol.grid);
    var i := RotatingAt(n, pol, now)[0];
    assert i in RotatingAt(n, pol, now);
    assert m.state.slots[i].generation == n.state.slots[i].generation + 1;
    assert i < |n.disk.slots| ==> NotLater(n.disk.slots[i], n.state.slots[i]);
  }

  lemma PlanInWindow(n: Node, pol: Policy, step: Step, w: int)
    requires PolicyOk(pol) && PoolOk(n.state, pol) && FileNotAhead(n) && step.PlanStep?
    requires step.now / pol.grid == w && RotatingAt(n, pol, step.now) != []
    ensures Quiet(Next(n, pol, step), pol.grid, w)
  {
    PlanFacts(n, pol, step.now, step.draw);
    PlanSettles(n, pol, step.now, step.draw, w);
    if !step.saved { RotationOutruns(n, pol, step.now, step.draw); }
  }

  /** Every rotation so far is paid for by an urgent tick, a forgotten rotation, or the one of the window. */
  lemma {:induction false} RotationLedger(r: Run, k: nat, w: int)
    requires Valid(r) && k <= |r.steps|
    ensures Rotations(r, k, w) <= UrgentTicks(r, k, w) + Undone(r, k, w)
                                + if Quiet(r.nodes[k], r.pol.grid, w) then 1 else 0
  {
    if k > 0 {
      RotationLedger(r, k - 1, w);
      var n, step := r.nodes[k - 1], r.steps[k - 1];
      if Quiet(n, r.pol.grid, w) && !UndoneAt(r, k - 1, w) { QuietStays(r, k - 1, w); }
      if InWindow(r, k - 1, w) && RotatesAt(r, k - 1) { RotationPaid(r, k - 1, w); }
    }
  }

  /** A rotation in an unsettled window settles it; in a settled one it is urgent. */
  lemma RotationPaid(r: Run, k: nat, w: int)
    requires Valid(r) && k < |r.steps| && InWindow(r, k, w) && RotatesAt(r, k)
    ensures Quiet(r.nodes[k + 1], r.pol.grid, w)
    ensures Quiet(r.nodes[k], r.pol.grid, w) ==> UrgentAt(r, k)
  {
    var n, step := r.nodes[k], r.steps[k];
    PoolAlwaysOk(r, k);
    AlwaysTracked(r, k);
    PlanInWindow(n, r.pol, step, w);
    if Quiet(n, r.pol.grid, w) {
      assert Enabled(n, r.pol, step);
      DivMonotone(n.clock, step.now, r.pol.grid);
      SettledRotatesOnlyUrgent(n, r.pol, step.now, w);
    }
  }

  // --------------------------------------- each revocation acts once

  predicate Past(st: LeaseState, slot: nat, generation: nat)
  {
    slot < |st.slots| && generation < st.slots[slot].generation
  }

  /** A plan that sees an urgent revocation leaves that generation behind. */
  lemma UrgentIsRotated(n: Node, pol: Policy, step: Step, slot: nat, generation: nat)
    requires PolicyOk(pol) && PoolOk(n.state, pol) && step.PlanStep?
    requires (slot, generation) in UrgentNow(n, step.now)
    ensures RotatingAt(n, pol, step.now) != [] && Past(Next(n, pol, step).state, slot, generation)
  {
    assert SomeWhy(n.state.slots, n.remote, step.now, Urgent);
    RotationRuleInOrder(n.state, n.remote, step.now, pol.grid);
    PlanFacts(n, pol, step.now, step.draw);
  }

  lemma PastEvolves(a: LeaseState, b: LeaseState, slot: nat, generation: nat)
    requires Past(a, slot, generation) && PoolEvolves(a.slots, b.slots)
    ensures Past(b, slot, generation)
  {
    assert Evolves(a.slots[slot], b.slots[slot]);
  }

  /** Crash `k` does not take this slot back to `generation` or before. */
  ghost predicate Remembers(r: Run, k: nat, slot: nat, generation: nat)
    requires Valid(r) && k < |r.steps|
  {
    r.steps[k].Restart? ==> Past(r.nodes[k].disk, slot, generation)
  }

  lemma PastStays(r: Run, k: nat, slot: nat, generation: nat)
    requires Valid(r) && k < |r.steps| && Past(r.nodes[k].state, slot, generation) && Remembers(r, k, slot, generation)
    ensures Past(r.nodes[k + 1].state, slot, generation)
  {
    if r.steps[k].Restart? {
      PoolAlwaysOk(r, k);
      LoadIsIdentity(r.nodes[k].disk, r.pol, r.steps[k].load);
    } else {
      StepEvolvesIff(r, k);
      PastEvolves(r.nodes[k].state, r.nodes[k + 1].state, slot, generation);
    }
  }

  lemma PastForGood(r: Run, i: nat, j: nat, slot: nat, generation: nat)
    requires Valid(r) && i <= j <= |r.steps| && Past(r.nodes[i].state, slot, generation)
    requires forall k :: i <= k < j ==> Remembers(r, k, slot, generation)
    ensures Past(r.nodes[j].state, slot, generation)
  {
    var k := i;
    while k < j
      invariant i <= k <= j && Past(r.nodes[k].state, slot, generation)
    {
      PastStays(r, k, slot, generation);
      k := k + 1;
    }
  }

  lemma NotUrgentOncePast(n: Node, now: int, slot: nat, generation: nat)
    requires Past(n.state, slot, generation)
    ensures (slot, generation) !in UrgentNow(n, now)
  {}

  /** A slot generation is an urgent candidate in at most one plan, unless a crash between forgets its rotation. */
  lemma UrgentOnlyOnce(r: Run, i: nat, j: nat, slot: nat, generation: nat)
    requires Valid(r) && i < j < |r.steps| && r.steps[i].PlanStep? && r.steps[j].PlanStep?
    requires (slot, generation) in UrgentNow(r.nodes[i], r.steps[i].now)
    requires forall k :: i < k < j ==> Remembers(r, k, slot, generation)
    ensures (slot, generation) !in UrgentNow(r.nodes[j], r.steps[j].now)
  {
    PoolAlwaysOk(r, i);
    UrgentIsRotated(r.nodes[i], r.pol, r.steps[i], slot, generation);
    PastForGood(r, i + 1, j, slot, generation);
    NotUrgentOncePast(r.nodes[j], r.steps[j].now, slot, generation);
  }

  /** Step `k` is a crash that forgets a rotation. */
  ghost predicate ForgetsRotation(r: Run, k: nat)
    requires Valid(r) && k < |r.steps|
  {
    r.steps[k].Restart? && Outrun(r.nodes[k])
  }

  /** No crash strictly between steps `i` and `j` forgets a rotation. */
  ghost predicate NoneForgottenBetween(r: Run, i: nat, j: nat)
    requires Valid(r) && j <= |r.steps|
  {
    forall k :: i < k < j ==> !ForgetsRotation(r, k)
  }

  /** Then a revocation acted on at `i` is not urgent again at `j`. */
  lemma UrgentOnlyOnceUnlessForgotten(r: Run, i: nat, j: nat, slot: nat, generation: nat)
    requires Valid(r) && i < j < |r.steps| && r.steps[i].PlanStep? && r.steps[j].PlanStep?
    requires NoneForgottenBetween(r, i, j)
    requires (slot, generation) in UrgentNow(r.nodes[i], r.steps[i].now)
    ensures (slot, generation) !in UrgentNow(r.nodes[j], r.steps[j].now)
  {
    PoolAlwaysOk(r, i);
    UrgentIsRotated(r.nodes[i], r.pol, r.steps[i], slot, generation);
    forall k | i < k < j ensures Remembers(r, k, slot, generation) {
      RememberedUpTo(r, i, k, slot, generation);
    }
    UrgentOnlyOnce(r, i, j, slot, generation);
  }

  lemma NotForgottenAt(r: Run, i: nat, j: nat, k: nat)
    requires Valid(r) && i < k < j <= |r.steps| && NoneForgottenBetween(r, i, j)
    ensures !ForgetsRotation(r, k)
  {}

  lemma PastIsRemembered(r: Run, k: nat, slot: nat, generation: nat)
    requires Valid(r) && k < |r.steps| && Past(r.nodes[k].state, slot, generation) && !ForgetsRotation(r, k)
    ensures Remembers(r, k, slot, generation)
  {
    if r.steps[k].Restart? { PastOnFile(r.nodes[k], slot, generation); }
  }

  lemma RememberedUpTo(r: Run, i: nat, k: nat, slot: nat, generation: nat)
    requires Valid(r) && i < k < |r.steps| && Past(r.nodes[i + 1].state, slot, generation)
    requires NoneForgottenBetween(r, i, k + 1)
    ensures Remembers(r, k, slot, generation)
  {
    var m := i + 1;
    while m < k
      invariant i < m <= k && Past(r.nodes[m].state, slot, generation)
    {
      NotForgottenAt(r, i, k + 1, m);
      PastIsRemembered(r, m, slot, generation);
      PastStays(r, m, slot, generation);
      m := m + 1;
    }
    NotForgottenAt(r, i, k + 1, k);
    PastIsRemembered(r, k, slot, generation);
  }

  lemma PastOnFile(n: Node, slot: nat, generation: nat)
    requires Past(n.state, slot, generation) && !Outrun(n)
    ensures Past(n.disk, slot, generation)
  {}

  lemma {:induction false} RevocationSource(r: Run, k: nat, w: int, x: (nat, nat)) returns (i: nat)
    requires Valid(r) && k <= |r.steps| && x in UrgentRevocations(r, k, w)
    ensures i < k && InWindow(r, i, w) && x in UrgentNow(r.nodes[i], r.steps[i].now)
  {
    if InWindow(r, k - 1, w) && x in UrgentNow(r.nodes[k - 1], r.steps[k - 1].now) {
      i := k - 1;
    } else {
      i := RevocationSource(r, k - 1, w, x);
    }
  }

  /** No crash in window `w` among the first `k` steps forgets a rotation. */
  ghost predicate NoneForgotten(r: Run, k: nat, w: int)
    requires Valid(r) && k <= |r.steps|
  {
    forall i :: 0 <= i < k ==> !ForgetsRotationIn(r, i, w)
  }

  ghost predicate ForgetsRotationIn(r: Run, k: nat, w: int)
    requires Valid(r) && k < |r.steps|
  {
    ForgetsRotation(r, k) && r.nodes[k].clock / r.pol.grid == w
  }

  /** Whatever happens between two plans of a window happens in it. */
  lemma BetweenPlans(r: Run, i: nat, j: nat, k: nat, w: int)
    requires Valid(r) && i < k < j < |r.steps| && InWindow(r, i, w) && InWindow(r, j, w)
    ensures r.nodes[k].clock / r.pol.grid == w
  {
    assert r.nodes[i + 1].clock == r.steps[i].now && Enabled(r.nodes[j], r.pol, r.steps[j]);
    ClockAdvances(r, i + 1, k);
    ClockAdvances(r, k, j);
    DivMonotone(r.steps[i].now, r.nodes[k].clock, r.pol.grid);
    DivMonotone(r.nodes[k].clock, r.steps[j].now, r.pol.grid);
  }

  lemma {:induction false} UrgentTicksCountRevocations(r: Run, k: nat, w: int)
    requires Valid(r) && k <= |r.steps| && NoneForgotten(r, k, w)
    ensures UrgentTicks(r, k, w) <= |UrgentRevocations(r, k, w)|
  {
    if k > 0 {
      UrgentTicksCountRevocations(r, k - 1, w);
      var seen := UrgentRevocations(r, k - 1, w);
      if InWindow(r, k - 1, w) && UrgentAt(r, k - 1) {
        var x := NewRevocation(r, k - 1, w);
        SubsetSize(seen + {x}, UrgentRevocations(r, k, w));
      } else {
        SubsetSize(seen, UrgentRevocations(r, k, w));
      }
    }
  }

  /** An urgent tick acts on a revocation no earlier tick of the window acted on. */
  lemma NewRevocation(r: Run, k: nat, w: int) returns (x: (nat, nat))
    requires Valid(r) && k < |r.steps| && NoneForgotten(r, k, w) && InWindow(r, k, w) && UrgentAt(r, k)
    ensures x !in UrgentRevocations(r, k, w) && x in UrgentNow(r.nodes[k], r.steps[k].now)
  {
    var n, now := r.nodes[k], r.steps[k].now;
    var i :| 0 <= i < |n.state.slots| && WhyRotate(n.state.slots[i], n.remote, now) == Some(Urgent);
    x := (i, n.state.slots[i].generation);
    if x in UrgentRevocations(r, k, w) {
      var j := RevocationSource(r, k, w, x);
      forall m | j < m < k ensures !ForgetsRotation(r, m) {
        BetweenPlans(r, j, k, m, w);
        assert !ForgetsRotationIn(r, m, w);
      }
      UrgentOnlyOnceUnlessForgotten(r, j, k, x.0, x.1);
      assert false;
    }
  }

  lemma SubsetSize<T>(a: set<T>, b: set<T>)
    requires a <= b
    ensures |a| <= |b|
  {
    if a != {} {
      var x :| x in a;
      SubsetSize(a - {x}, b - {x});
    }
  }

  lemma {:induction false} NoneUndone(r: Run, k: nat, w: int)
    requires Valid(r) && k <= |r.steps| && NoneForgotten(r, k, w)
    ensures Undone(r, k, w) == 0
  {
    if k > 0 {
      NoneUndone(r, k - 1, w);
      assert !ForgetsRotationIn(r, k - 1, w);
    }
  }

  /**
   In every run and every window, whatever writes fail, the rotations number
   at most one, plus the plans that saw an urgent revocation, plus the crashes
   in the window that forgot a rotation which had settled it.
   */
  lemma RotationsPerWindow(r: Run, k: nat, w: int)
    requires Valid(r) && k <= |r.steps|
    ensures Rotations(r, k, w) <= 1 + UrgentTicks(r, k, w) + Undone(r, k, w)
  {
    RotationLedger(r, k, w);
  }

  /** In a window in which no crash forgets a rotation: at most one, plus one per urgently revoked generation. */
  lemma OnePerWindowPlusOnePerUrgent(r: Run, k: nat, w: int)
    requires Valid(r) && k <= |r.steps| && NoneForgotten(r, k, w)
    ensures Rotations(r, k, w) <= 1 + |UrgentRevocations(r, k, w)|
  {
    RotationsPerWindow(r, k, w);
    UrgentTicksCountRevocations(r, k, w);
    NoneUndone(r, k, w);
  }

  /**
   And one that does forget costs one: from any one-slot pool whose slot has
   ended, a failed write and a crash give two rotations in one window with no
   revocation at all.
   */
  lemma ForgottenRotationCostsOne(n: Node, pol: Policy, now: int, first: Secrets, second: Secrets) returns (r: Run)
    requires CanFork(n, pol, now, first, second)
    ensures ActsOk(n, pol, ForkActs(now, first, second)) && r == RunOf(n, pol, ForkActs(now, first, second))
    ensures Valid(r) && |r.steps| == 8
    ensures var w := now / pol.grid;
            w == now / r.pol.grid && Rotations(r, 8, w) == 2 && UrgentTicks(r, 8, w) == 0 && Undone(r, 8, w) == 1
  {
    r := FailedWriteForksAGeneration(n, pol, now, first, second);
    ForkCounts(r, now, first, second);
  }

  lemma ForkCounts(r: Run, now: int, first: Secrets, second: Secrets)
    requires Valid(r) && r.steps == ForkSteps(now, first, second)
    requires Ended(r.nodes[0], r.pol, now) && Fresh(r.nodes[1], r.pol, now) && Fresh(r.nodes[3], r.pol, now)
    requires Ended(r.nodes[6], r.pol, now)
    ensures var w := now / r.pol.grid;
            Rotations(r, 8, w) == 2 && UrgentTicks(r, 8, w) == 0 && Undone(r, 8, w) == 1
  {
    var w := now / r.pol.grid;
    ForkPlans(r, now, first, second);
    TwoRotations(r, w);
    RotationLedger(r, 8, w);
    OneRestart(r, w);
  }

  lemma ForkPlans(r: Run, now: int, first: Secrets, second: Secrets)
    requires Valid(r) && r.steps == ForkSteps(now, first, second)
    requires Ended(r.nodes[0], r.pol, now) && Fresh(r.nodes[1], r.pol, now) && Fresh(r.nodes[3], r.pol, now)
    requires Ended(r.nodes[6], r.pol, now)
    ensures RotatesAt(r, 0) && !RotatesAt(r, 1) && !RotatesAt(r, 3) && RotatesAt(r, 6)
    ensures !UrgentAt(r, 0) && !UrgentAt(r, 1) && !UrgentAt(r, 3) && !UrgentAt(r, 6)
  {
    ExpiredRotates(r.nodes[0], r.pol, now);
    ExpiredRotates(r.nodes[6], r.pol, now);
    FreshWaits(r.nodes[1], r.pol, now);
    FreshWaits(r.nodes[3], r.pol, now);
  }

  lemma FreshWaits(n: Node, pol: Policy, now: int)
    requires Fresh(n, pol, now)
    ensures RotatingAt(n, pol, now) == [] && !SomeWhy(n.state.slots, n.remote, now, Urgent)
  {
    assert WhyRotate(n.state.slots[0], n.remote, now).None?;
    RotationRuleInOrder(n.state, n.remote, now, pol.grid);
  }

  lemma ExpiredRotates(n: Node, pol: Policy, now: int)
    requires Ended(n, pol, now)
    ensures RotatingAt(n, pol, now) != [] && !SomeWhy(n.state.slots, n.remote, now, Urgent)
  {
    assert WhyRotate(n.state.slots[0], n.remote, now) == Some(Expired);
    assert SomeWhy(n.state.slots, n.remote, now, Expired);
    RotationRuleInOrder(n.state, n.remote, now, pol.grid);
  }

  lemma CountOne(r: Run, k: nat, w: int)
    requires Valid(r) && k < |r.steps| && (r.steps[k].PlanStep? ==> InWindow(r, k, w) && !UrgentAt(r, k))
    ensures Rotations(r, k + 1, w) == Rotations(r, k, w) + if RotatesAt(r, k) then 1 else 0
    ensures UrgentTicks(r, k + 1, w) == UrgentTicks(r, k, w)
  {}

  lemma TwoRotations(r: Run, w: int)
    requires Valid(r) && |r.steps| == 8 && RotatesAt(r, 0) && RotatesAt(r, 6)
    requires forall k :: 0 <= k < 8 && k != 0 && k != 6 ==> !RotatesAt(r, k)
    requires forall k :: 0 <= k < 8 && r.steps[k].PlanStep? ==> InWindow(r, k, w) && !UrgentAt(r, k)
    ensures Rotations(r, 8, w) == 2 && UrgentTicks(r, 8, w) == 0
  {
    CountOne(r, 0, w);
    CountOne(r, 1, w);
    CountOne(r, 2, w);
    CountOne(r, 3, w);
    CountOne(r, 4, w);
    CountOne(r, 5, w);
    CountOne(r, 6, w);
    CountOne(r, 7, w);
  }

  lemma UndoneStays(r: Run, k: nat, w: int)
    requires Valid(r) && k < |r.steps| && !r.steps[k].Restart?
    ensures Undone(r, k + 1, w) == Undone(r, k, w)
  {}

  lemma OneRestart(r: Run, w: int)
    requires Valid(r) && |r.steps| == 8 && forall i :: 0 <= i < 8 && i != 5 ==> !r.steps[i].Restart?
    ensures Undone(r, 8, w) <= 1
  {
    UndoneStays(r, 0, w);
    UndoneStays(r, 1, w);
    UndoneStays(r, 2, w);
    UndoneStays(r, 3, w);
    UndoneStays(r, 4, w);
    UndoneStays(r, 6, w);
    UndoneStays(r, 7, w);
  }
}
