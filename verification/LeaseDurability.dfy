/**
 Persist before apply: when the state file holds what memory holds, what a
 crash can forget, and what a failed write does to that promise.
 */
module LeaseDurability {
  import opened LeaseSlots
  import opened LeasePools
  import opened LeaseRuns

  /** Same credential of the same generation with the same bounds; bookkeeping flags may differ. */
  predicate SameLease(a: Slot, b: Slot)
  {
    a.generation == b.generation && ToLive(a) == ToLive(b)
  }

  predicate FileHoldsPool(n: Node)
  {
    |n.disk.slots| == |n.state.slots|
    && forall i :: 0 <= i < |n.disk.slots| ==> SameLease(n.disk.slots[i], n.state.slots[i])
  }

  /** The renewal count of a sync step. */
  ghost function RenewedBy(n: Node, pol: Policy, later: int, view: RemoteView): nat
    requires pol.grid > 0
  {
    CountExtended(Marked(n.state, view).slots, view, later, pol)
  }

  /**
   A write that carried a new, resized or renewed slot has failed in this
   process, and neither a later write nor a restart has made up for it.
   */
  ghost predicate Behind(r: Run, k: nat)
    requires Valid(r) && k <= |r.steps|
  {
    k > 0 &&
    var n := r.nodes[k - 1];
    match r.steps[k - 1]
    case PlanStep(now, draw, saved) =>
      if PlanOf(n, r.pol, now, draw).1 then !saved else Behind(r, k - 1)
    case ApplySucceeds(saved) => !saved && Behind(r, k - 1)
    case SyncStep(later, answer, saved) =>
      if !AnswerReadable(answer) || SyncOf(n, r.pol, later, ViewOf(answer)) == n.state then Behind(r, k - 1)
      else !saved && (Behind(r, k - 1) || RenewedBy(n, r.pol, later, ViewOf(answer)) > 0)
    case Restart(_) => false
    case _ => Behind(r, k - 1)
  }

  predicate Earlier(a: Slot, b: Slot)
  {
    a.generation < b.generation || (a.generation == b.generation && a.validUntil < b.validUntil)
  }

  predicate NotLater(a: Slot, b: Slot)
  {
    Earlier(a, b) || (a.generation == b.generation && a.validUntil == b.validUntil)
  }

  predicate FileNotAhead(n: Node)
  {
    |n.disk.slots| <= |n.state.slots|
    && forall i :: 0 <= i < |n.disk.slots| ==> NotLater(n.disk.slots[i], n.state.slots[i])
  }

  predicate FileOutdated(n: Node)
  {
    |n.disk.slots| < |n.state.slots|
    || exists i :: 0 <= i < |n.disk.slots| && i < |n.state.slots| && Earlier(n.disk.slots[i], n.state.slots[i])
  }

  ghost predicate Tracked(r: Run, k: nat)
    requires Valid(r) && k <= |r.steps|
  {
    && FileNotAhead(r.nodes[k])
    && (if Behind(r, k) then FileOutdated(r.nodes[k]) else FileHoldsPool(r.nodes[k]))
  }

  lemma EvolvedStaysOutdated(n: Node, m: Node)
    requires FileNotAhead(n) && PoolEvolves(n.state.slots, m.state.slots) && m.disk == n.disk
    ensures FileNotAhead(m)
    ensures FileOutdated(n) ==> FileOutdated(m)
  {
    if FileOutdated(n) && |n.disk.slots| == |m.state.slots| {
      var i :| 0 <= i < |n.disk.slots| && i < |n.state.slots| && Earlier(n.disk.slots[i], n.state.slots[i]);
      assert Evolves(n.state.slots[i], m.state.slots[i]);
    }
  }

  lemma PlanTracked(n: Node, pol: Policy, now: int, draw: nat -> Secrets)
    requires PolicyOk(pol) && PoolOk(n.state, pol) && FileNotAhead(n)
    ensures var m := Next(n, pol, PlanStep(now, draw, false));
            FileNotAhead(m) && (FileOutdated(n) || PlanOf(n, pol, now, draw).1 ==> FileOutdated(m))
  {
    var m := Next(n, pol, PlanStep(now, draw, false));
    PlanEvolves(n, pol, now, draw);
    EvolvedStaysOutdated(n, m);
    PlanFacts(n, pol, now, draw);
    RotationRuleInOrder(n.state, n.remote, now, pol.grid);
    var rotate := RotatingAt(n, pol, now);
    if rotate != [] && |n.disk.slots| == |m.state.slots| {
      assert rotate[0] in rotate;
      assert Earlier(n.state.slots[rotate[0]], m.state.slots[rotate[0]]);
      assert Earlier(n.disk.slots[rotate[0]], m.state.slots[rotate[0]]);
    }
  }

  lemma SyncTracked(n: Node, pol: Policy, later: int, answer: SyncAnswer)
    requires PolicyOk(pol) && FileNotAhead(n) && AnswerReadable(answer)
    ensures var m := Next(n, pol, SyncStep(later, answer, false));
            && FileNotAhead(m)
            && (FileOutdated(n) || RenewedBy(n, pol, later, ViewOf(answer)) > 0 ==> FileOutdated(m))
            && (FileHoldsPool(n) && RenewedBy(n, pol, later, ViewOf(answer)) == 0 ==> FileHoldsPool(m))
  {
    var view := ViewOf(answer);
    var m := Next(n, pol, SyncStep(later, answer, false));
    var marked := Marked(n.state, view);
    SyncEvolves(n, pol, later, view);
    EvolvedStaysOutdated(n, m);
    SyncFacts(n, pol, later, view);
    CountExtendedZero(marked.slots, view, later, pol);
    if RenewedBy(n, pol, later, view) > 0 && |n.disk.slots| == |m.state.slots| {
      var i :| 0 <= i < |marked.slots| && Extension(marked.slots[i], view, later, pol).Some?;
      assert Earlier(n.state.slots[i], m.state.slots[i]);
      assert NotLater(n.disk.slots[i], n.state.slots[i]);
    }
    if FileHoldsPool(n) && RenewedBy(n, pol, later, view) == 0 {
      forall i | 0 <= i < |m.disk.slots| ensures SameLease(m.disk.slots[i], m.state.slots[i]) {
        assert Extension(marked.slots[i], view, later, pol).None?;
      }
    }
  }

  lemma HoldsIsNotAhead(n: Node)
    requires FileHoldsPool(n)
    ensures FileNotAhead(n)
  {
    assert forall i :: 0 <= i < |n.disk.slots| ==> SameLease(n.disk.slots[i], n.state.slots[i]);
  }

  lemma SavedHolds(n: Node)
    requires n.disk == n.state
    ensures FileHoldsPool(n) && FileNotAhead(n)
  {
    HoldsIsNotAhead(n);
  }

  lemma PlanStepTracked(r: Run, k: nat)
    requires Valid(r) && k < |r.steps| && r.steps[k].PlanStep? && PoolOk(r.nodes[k].state, r.pol) && Tracked(r, k)
    ensures Tracked(r, k + 1)
  {
    var n, m, step := r.nodes[k], r.nodes[k + 1], r.steps[k];
    PlanFacts(n, r.pol, step.now, step.draw);
    if PlanOf(n, r.pol, step.now, step.draw).1 {
      if step.saved { SavedHolds(m); } else { PlanTracked(n, r.pol, step.now, step.draw); }
    }
  }

  lemma SyncStepTracked(r: Run, k: nat)
    requires Valid(r) && k < |r.steps| && r.steps[k].SyncStep? && Tracked(r, k)
    ensures Tracked(r, k + 1)
  {
    var n, m, step := r.nodes[k], r.nodes[k + 1], r.steps[k];
    if AnswerReadable(step.answer) && SyncOf(n, r.pol, step.later, ViewOf(step.answer)) != n.state {
      if step.saved {
        SavedHolds(m);
      } else {
        SyncTracked(n, r.pol, step.later, step.answer);
        if !Behind(r, k + 1) { HoldsIsNotAhead(m); }
      }
    }
  }

  lemma OtherStepTracked(r: Run, k: nat)
    requires Valid(r) && k < |r.steps| && !r.steps[k].PlanStep? && !r.steps[k].SyncStep?
    requires PoolOk(r.nodes[k].disk, r.pol) && Tracked(r, k)
    ensures Tracked(r, k + 1)
  {
    var n, m := r.nodes[k], r.nodes[k + 1];
    match r.steps[k]
    case Restart(load) =>
      LoadIsIdentity(n.disk, r.pol, load);
      SavedHolds(m);
    case ApplySucceeds(saved) => if saved { SavedHolds(m); }
    case _ =>
  }

  lemma {:induction false} AlwaysTracked(r: Run, k: nat)
    requires Valid(r) && k <= |r.steps|
    ensures Tracked(r, k)
  {
    if k == 0 {
      SavedHolds(r.nodes[0]);
    } else {
      AlwaysTracked(r, k - 1);
      PoolAlwaysOk(r, k - 1);
      if r.steps[k - 1].PlanStep? {
        PlanStepTracked(r, k - 1);
      } else if r.steps[k - 1].SyncStep? {
        SyncStepTracked(r, k - 1);
      } else {
        OtherStepTracked(r, k - 1);
      }
    }
  }

  lemma OutdatedDoesNotHold(n: Node)
    requires FileOutdated(n)
    ensures !FileHoldsPool(n)
  {
    if |n.disk.slots| == |n.state.slots| {
      var i :| 0 <= i < |n.disk.slots| && i < |n.state.slots| && Earlier(n.disk.slots[i], n.state.slots[i]);
      assert !SameLease(n.disk.slots[i], n.state.slots[i]);
    }
  }

  /**
   At every point of every run, the file holds the pool in memory if and only
   if no write that carried a change is still owed. An apply is therefore of
   the durable pool exactly when nothing is owed at that moment.
   */
  lemma FileHoldsPoolIff(r: Run, k: nat)
    requires Valid(r) && k <= |r.steps|
    ensures FileHoldsPool(r.nodes[k]) <==> !Behind(r, k)
  {
    AlwaysTracked(r, k);
    if Behind(r, k) { OutdatedDoesNotHold(r.nodes[k]); }
  }

  // ------------------------------------- one credential per generation

  /** Step `k` is a crash while a write that carried a change is owed. */
  ghost predicate Forgets(r: Run, k: nat)
    requires Valid(r) && k < |r.steps|
  {
    r.steps[k].Restart? && Behind(r, k)
  }

  lemma EvolvesSelf(slots: seq<Slot>)
    ensures PoolEvolves(slots, slots)
  {}

  lemma OutdatedRegresses(n: Node)
    requires FileOutdated(n)
    ensures !PoolEvolves(n.state.slots, n.disk.slots)
  {
    if |n.disk.slots| >= |n.state.slots| {
      var i :| 0 <= i < |n.disk.slots| && i < |n.state.slots| && Earlier(n.disk.slots[i], n.state.slots[i]);
      assert !Evolves(n.state.slots[i], n.disk.slots[i]);
    }
  }

  lemma HeldFileEvolves(n: Node)
    requires FileHoldsPool(n)
    ensures PoolEvolves(n.state.slots, n.disk.slots)
  {
    forall i | 0 <= i < |n.state.slots| ensures Evolves(n.state.slots[i], n.disk.slots[i]) {
      assert SameLease(n.disk.slots[i], n.state.slots[i]);
    }
  }

  /** Every step lets the pool evolve, except exactly a crash that forgets. */
  lemma StepEvolvesIff(r: Run, k: nat)
    requires Valid(r) && k < |r.steps|
    ensures PoolEvolves(r.nodes[k].state.slots, r.nodes[k + 1].state.slots) <==> !Forgets(r, k)
  {
    PoolAlwaysOk(r, k);
    var n, step := r.nodes[k], r.steps[k];
    match step
    case PlanStep(now, draw, _) => PlanEvolves(n, r.pol, now, draw);
    case SyncStep(later, answer, _) =>
      if AnswerReadable(answer) { SyncEvolves(n, r.pol, later, ViewOf(answer)); } else { EvolvesSelf(n.state.slots); }
    case Restart(load) =>
      LoadIsIdentity(n.disk, r.pol, load);
      AlwaysTracked(r, k);
      if Behind(r, k) { OutdatedRegresses(n); } else { HeldFileEvolves(n); }
    case _ => EvolvesSelf(n.state.slots);
  }

  /**
   While no crash forgets, failed writes included: a slot keeps its principal,
   its generation never goes back, and one generation is one credential whose
   end never moves back.
   */
  lemma OneCredentialPerGeneration(r: Run, i: nat, j: nat)
    requires Valid(r) && i <= j <= |r.steps| && forall m :: i <= m < j ==> !Forgets(r, m)
    ensures PoolEvolves(r.nodes[i].state.slots, r.nodes[j].state.slots)
  {
    EvolvesSelf(r.nodes[i].state.slots);
    var m := i;
    while m < j
      invariant i <= m <= j && PoolEvolves(r.nodes[i].state.slots, r.nodes[m].state.slots)
    {
      StepEvolvesIff(r, m);
      EvolvesTransitive(r.nodes[i].state.slots, r.nodes[m].state.slots, r.nodes[m + 1].state.slots);
      m := m + 1;
    }
  }

  /** Exactly then: the promise holds between all points of a run if and only if no crash in it forgets. */
  lemma OneCredentialIff(r: Run, k: nat)
    requires Valid(r) && k <= |r.steps|
    ensures (forall i, j :: 0 <= i <= j <= k ==> PoolEvolves(r.nodes[i].state.slots, r.nodes[j].state.slots))
       <==> (forall m :: 0 <= m < k ==> !Forgets(r, m))
  {
    if forall m :: 0 <= m < k ==> !Forgets(r, m) {
      forall i, j | 0 <= i <= j <= k ensures PoolEvolves(r.nodes[i].state.slots, r.nodes[j].state.slots) {
        OneCredentialPerGeneration(r, i, j);
      }
    } else {
      var m :| 0 <= m < k && Forgets(r, m);
      StepEvolvesIff(r, m);
    }
  }

  // --------------------------------------------------- what went live

  ghost predicate TakesEffect(step: Step)
  {
    step.ApplySucceeds? || (step.ApplyFails? && step.reached)
  }

  /** The last apply to take effect among the first `k` steps left its pool on file. */
  ghost predicate LastApplyOnFile(r: Run, k: nat)
    requires Valid(r) && k <= |r.steps|
  {
    k == 0 || if TakesEffect(r.steps[k - 1]) then !Behind(r, k) else LastApplyOnFile(r, k - 1)
  }

  lemma HeldFileProjects(n: Node)
    requires FileHoldsPool(n)
    ensures Project(n.disk.slots) == Project(n.state.slots)
  {
    forall i | 0 <= i < |n.disk.slots| ensures ToLive(n.disk.slots[i]) == ToLive(n.state.slots[i]) {
      assert SameLease(n.disk.slots[i], n.state.slots[i]);
    }
  }

  /** An apply puts on the node exactly what is on file afterwards, if and only if no write is then owed. */
  lemma EffectOnFileIff(r: Run, k: nat)
    requires Valid(r) && k < |r.steps| && TakesEffect(r.steps[k])
    ensures r.nodes[k + 1].live == Project(r.nodes[k + 1].state.slots)
    ensures FileHoldsPool(r.nodes[k + 1]) <==> !Behind(r, k + 1)
    ensures !Behind(r, k + 1) ==> r.nodes[k + 1].live == Project(r.nodes[k + 1].disk.slots)
  {
    FileHoldsPoolIff(r, k + 1);
    if !Behind(r, k + 1) { HeldFileProjects(r.nodes[k + 1]); }
  }

  /**
   If the last apply to take effect left its pool on file, whatever is live was
   on file when it went live, at point `i`.
   */
  lemma LiveWasOnFile(r: Run, k: nat) returns (i: nat)
    requires Valid(r) && k <= |r.steps| && LastApplyOnFile(r, k)
    ensures i <= k && (i == 0 || TakesEffect(r.steps[i - 1]))
    ensures r.nodes[k].live == if i == 0 then r.nodes[0].live else Project(r.nodes[i].disk.slots)
  {
    i := k;
    while i > 0 && !TakesEffect(r.steps[i - 1])
      invariant i <= k && LastApplyOnFile(r, i) && r.nodes[i].live == r.nodes[k].live
    {
      LiveUnchanged(r, i - 1);
      i := i - 1;
    }
    if i > 0 { EffectOnFileIff(r, i - 1); }
  }

  lemma LiveUnchanged(r: Run, k: nat)
    requires Valid(r) && k < |r.steps| && !TakesEffect(r.steps[k])
    ensures r.nodes[k + 1].live == r.nodes[k].live
  {}

  /** The step writes the state file, an apply's own mark aside. */
  ghost predicate WritesPool(r: Run, k: nat)
    requires Valid(r) && k < |r.steps|
  {
    var n := r.nodes[k];
    match r.steps[k]
    case PlanStep(now, draw, saved) => saved && PlanOf(n, r.pol, now, draw).1
    case SyncStep(later, answer, saved) =>
      saved && AnswerReadable(answer) && SyncOf(n, r.pol, later, ViewOf(answer)) != n.state
    case _ => false
  }

  /** The last apply to take effect left its pool off the file, and nothing has been written since. */
  ghost predicate Astray(r: Run, k: nat)
    requires Valid(r) && k <= |r.steps|
  {
    k > 0 &&
    if TakesEffect(r.steps[k - 1]) then Behind(r, k) else !WritesPool(r, k - 1) && Astray(r, k - 1)
  }

  /** A file marked applied is what is live. */
  predicate MarkIsTrue(n: Node)
  {
    n.disk.applied ==> n.live == Project(n.disk.slots)
  }

  lemma WrittenIsLive(r: Run, k: nat)
    requires Valid(r) && k < |r.steps| && WritesPool(r, k)
    ensures MarkIsTrue(r.nodes[k + 1])
  {
    PoolAlwaysOk(r, k);
    AppliedIsLive(r, k);
    var n, step := r.nodes[k], r.steps[k];
    assert Enabled(n, r.pol, step);
    if step.PlanStep? {
      PlanFacts(n, r.pol, step.now, step.draw);
    } else {
      SyncFacts(n, r.pol, step.later, ViewOf(step.answer));
    }
  }

  lemma NothingWritten(r: Run, k: nat)
    requires Valid(r) && k < |r.steps| && !WritesPool(r, k) && !TakesEffect(r.steps[k])
    ensures r.nodes[k + 1].disk == r.nodes[k].disk && r.nodes[k + 1].live == r.nodes[k].live
  {}

  /** The mark is true across crashes and failed writes, unless an apply went astray. */
  lemma {:induction false} AppliedFileIsLive(r: Run, k: nat)
    requires Valid(r) && k <= |r.steps| && MarkIsTrue(r.nodes[0]) && !Astray(r, k)
    ensures MarkIsTrue(r.nodes[k])
  {
    if k > 0 {
      if TakesEffect(r.steps[k - 1]) {
        EffectOnFileIff(r, k - 1);
      } else if WritesPool(r, k - 1) {
        WrittenIsLive(r, k - 1);
      } else {
        AppliedFileIsLive(r, k - 1);
        NothingWritten(r, k - 1);
      }
    }
  }
}
