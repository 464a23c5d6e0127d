/**
 How the live pool stands to the state file. It is a pool the file has held,
 trailing it by the changes written since, or one the file is yet to reach, or
 one the file has passed over; which, is decided by what was written when.
 */
module LeaseLag {
  import opened LeaseSlots
  import opened LeasePools
  import opened LeaseRuns
  import opened LeaseTicks
  import opened LeaseDurability
  import opened LeaseForks
  import opened PoolOrder

  /** Step `k` puts a new, resized or renewed pool on file, or one whose write was owed. */
  ghost predicate Changes(r: Run, k: nat)
    requires Valid(r) && k < |r.steps|
  {
    var n := r.nodes[k];
    match r.steps[k]
    case PlanStep(_, _, _) => WritesPool(r, k)
    case SyncStep(later, answer, _) =>
      WritesPool(r, k) && (Behind(r, k) || RenewedBy(n, r.pol, later, ViewOf(answer)) > 0)
    case ApplySucceeds(saved) => saved && Behind(r, k)
    case _ => false
  }

  /** Step `k` renews, rotates or resizes the pool in memory. */
  ghost predicate Moves(r: Run, k: nat)
    requires Valid(r) && k < |r.steps|
  {
    match r.steps[k]
    case PlanStep(now, draw, _) => PlanOf(r.nodes[k], r.pol, now, draw).1
    case SyncStep(later, answer, _) => AnswerReadable(answer) && RenewedBy(r.nodes[k], r.pol, later, ViewOf(answer)) > 0
    case _ => false
  }

  /** Memory has not moved since an apply last reached the node. */
  ghost predicate Unmoved(r: Run, k: nat)
    requires Valid(r) && k <= |r.steps|
  {
    k == 0 || TakesEffect(r.steps[k - 1]) || (!Moves(r, k - 1) && Unmoved(r, k - 1))
  }

  /** The file holds the pool of the last apply that reached the node, or has held it since. */
  ghost predicate Shown(r: Run, k: nat)
    requires Valid(r) && k <= |r.steps|
  {
    k == 0 ||
    if TakesEffect(r.steps[k - 1]) then !Behind(r, k)
    else Shown(r, k - 1) || (Astray(r, k - 1) && WritesPool(r, k - 1) && Unmoved(r, k))
  }

  /** A crash forgot the pool of the last apply that reached the node before anything was written of it. */
  ghost predicate Forgotten(r: Run, k: nat)
    requires Valid(r) && k <= |r.steps|
  {
    k > 0 && !TakesEffect(r.steps[k - 1]) && (Forgotten(r, k - 1) || (Astray(r, k - 1) && Forgets(r, k - 1)))
  }

  /** Changes put on file since it first held the pool of the last apply that reached the node. */
  ghost function Lag(r: Run, k: nat): nat
    requires Valid(r) && k <= |r.steps|
  {
    if k == 0 || TakesEffect(r.steps[k - 1]) || !Shown(r, k - 1) then 0
    else Lag(r, k - 1) + if Changes(r, k - 1) then 1 else 0
  }

  /** The pool of the last apply that reached the node. */
  ghost function InForce(r: Run, k: nat): seq<Slot>
    requires Valid(r) && k <= |r.steps|
  {
    if k == 0 then r.nodes[0].disk.slots
    else if TakesEffect(r.steps[k - 1]) then r.nodes[k].state.slots
    else InForce(r, k - 1)
  }

  /** The pool on file before the last change to it. */
  ghost function Previous(r: Run, k: nat): seq<Slot>
    requires Valid(r) && k <= |r.steps|
  {
    if k == 0 then r.nodes[0].disk.slots
    else if Changes(r, k - 1) then r.nodes[k - 1].disk.slots
    else Previous(r, k - 1)
  }

  lemma PlanMovesFile(r: Run, k: nat)
    requires Valid(r) && k < |r.steps| && r.steps[k].PlanStep? && WritesPool(r, k)
    ensures EarlierPool(r.nodes[k].disk.slots, r.nodes[k + 1].disk.slots)
  {
    var n, step := r.nodes[k], r.steps[k];
    PoolAlwaysOk(r, k);
    AlwaysTracked(r, k);
    PlanTracked(n, r.pol, step.now, step.draw);
    OutdatedIsEarlier(Next(n, r.pol, PlanStep(step.now, step.draw, false)));
  }

  lemma SyncMovesFile(r: Run, k: nat)
    requires Valid(r) && k < |r.steps| && r.steps[k].SyncStep? && WritesPool(r, k)
    ensures var a, b := r.nodes[k].disk.slots, r.nodes[k + 1].disk.slots;
            if Changes(r, k) then EarlierPool(a, b) else SamePool(a, b)
  {
    var n, step := r.nodes[k], r.steps[k];
    AlwaysTracked(r, k);
    SyncTracked(n, r.pol, step.later, step.answer);
    var m := Next(n, r.pol, SyncStep(step.later, step.answer, false));
    if Changes(r, k) { OutdatedIsEarlier(m); } else { HeldIsSame(m); }
  }

  lemma ApplyMovesFile(r: Run, k: nat)
    requires Valid(r) && k < |r.steps| && r.steps[k].ApplySucceeds? && r.steps[k].saved
    ensures var a, b := r.nodes[k].disk.slots, r.nodes[k + 1].disk.slots;
            if Changes(r, k) then EarlierPool(a, b) else SamePool(a, b)
  {
    AlwaysTracked(r, k);
    if Behind(r, k) { OutdatedIsEarlier(r.nodes[k]); } else { HeldIsSame(r.nodes[k]); }
  }

  /** In every run, a change puts a strictly later pool on file, and every other step leaves the pool on file alone. */
  lemma FileMoves(r: Run, k: nat)
    requires Valid(r) && k < |r.steps|
    ensures var a, b := r.nodes[k].disk.slots, r.nodes[k + 1].disk.slots;
            if Changes(r, k) then EarlierPool(a, b) else SamePool(a, b)
  {
    var step := r.steps[k];
    if step.PlanStep? && WritesPool(r, k) {
      PlanMovesFile(r, k);
    } else if step.SyncStep? && WritesPool(r, k) {
      SyncMovesFile(r, k);
    } else if step.ApplySucceeds? && step.saved {
      ApplyMovesFile(r, k);
    } else {
      assert r.nodes[k + 1].disk == r.nodes[k].disk;
      SameSelf(r.nodes[k].disk.slots);
    }
  }

  // -------------------------------------------------- an apply astray

  lemma {:induction false} AstrayIsAhead(r: Run, k: nat)
    requires Valid(r) && k <= |r.steps| && Astray(r, k)
    ensures EarlierPool(r.nodes[k].disk.slots, InForce(r, k))
  {
    if TakesEffect(r.steps[k - 1]) {
      AlwaysTracked(r, k);
      OutdatedIsEarlier(r.nodes[k]);
    } else {
      AstrayIsAhead(r, k - 1);
      NothingWritten(r, k - 1);
    }
  }

  /** Every step but a restart moves the pool in memory strictly on, or leaves it alone. */
  lemma MemoryMoves(r: Run, k: nat)
    requires Valid(r) && k < |r.steps| && !r.steps[k].Restart?
    ensures var a, b := r.nodes[k].state.slots, r.nodes[k + 1].state.slots;
            if Moves(r, k) then EarlierPool(a, b) else SamePool(a, b)
  {
    var n, step := r.nodes[k], r.steps[k];
    var m := n.(disk := n.state);
    SavedHolds(m);
    if step.PlanStep? {
      PlanMovesMemory(r, k);
    } else if step.SyncStep? && AnswerReadable(step.answer) {
      SyncTracked(m, r.pol, step.later, step.answer);
      var l := Next(m, r.pol, SyncStep(step.later, step.answer, false));
      if Moves(r, k) { OutdatedIsEarlier(l); } else { HeldIsSame(l); }
    } else {
      SameSelf(n.state.slots);
    }
  }

  lemma PlanMovesMemory(r: Run, k: nat)
    requires Valid(r) && k < |r.steps| && r.steps[k].PlanStep?
    ensures var a, b := r.nodes[k].state.slots, r.nodes[k + 1].state.slots;
            if Moves(r, k) then EarlierPool(a, b) else SamePool(a, b)
  {
    var n, step := r.nodes[k], r.steps[k];
    var m := n.(disk := n.state);
    PoolAlwaysOk(r, k);
    if Moves(r, k) {
      SavedHolds(m);
      PlanTracked(m, r.pol, step.now, step.draw);
      OutdatedIsEarlier(Next(m, r.pol, PlanStep(step.now, step.draw, false)));
    } else {
      PlanFacts(n, r.pol, step.now, step.draw);
      SameSelf(n.state.slots);
    }
  }

  /** Where memory stands to the pool of the last apply that reached the node. */
  ghost predicate MemoryFollows(r: Run, k: nat)
    requires Valid(r) && k <= |r.steps|
  {
    var live, memory := InForce(r, k), r.nodes[k].state.slots;
    if Unmoved(r, k) then SamePool(live, memory) else EarlierPool(live, memory)
  }

  lemma FollowsOn(r: Run, k: nat)
    requires Valid(r) && k < |r.steps| && !r.steps[k].Restart? && !TakesEffect(r.steps[k]) && MemoryFollows(r, k)
    ensures MemoryFollows(r, k + 1)
  {
    var live, a, b := InForce(r, k), r.nodes[k].state.slots, r.nodes[k + 1].state.slots;
    MemoryMoves(r, k);
    if Unmoved(r, k) {
      if Moves(r, k) { SameThenEarlier(live, a, b); }
    } else if Moves(r, k) {
      EarlierTransitive(live, a, b);
    } else {
      EarlierThenSame(live, a, b);
    }
  }

  /** Until the pool of an apply astray is written or forgotten, its write is owed and memory follows it. */
  lemma {:induction false} AstrayIsOwed(r: Run, k: nat)
    requires Valid(r) && k <= |r.steps| && Astray(r, k) && !Forgotten(r, k)
    ensures Behind(r, k) && MemoryFollows(r, k)
  {
    if TakesEffect(r.steps[k - 1]) {
      SameSelf(r.nodes[k].state.slots);
    } else {
      AstrayIsOwed(r, k - 1);
      StillOwed(r, k - 1);
      FollowsOn(r, k - 1);
    }
  }

  lemma StillOwed(r: Run, k: nat)
    requires Valid(r) && k < |r.steps| && Behind(r, k) && !r.steps[k].Restart? && !TakesEffect(r.steps[k])
    requires !WritesPool(r, k)
    ensures Behind(r, k + 1)
  {}

  /**
   The first write after an apply astray, if no crash forgot it, puts the live
   pool on file if and only if memory had not moved in between; otherwise it
   puts a strictly later one there.
   */
  lemma LateWriteIsLiveIff(r: Run, k: nat)
    requires Valid(r) && k < |r.steps| && Astray(r, k) && WritesPool(r, k) && !Forgotten(r, k + 1)
    ensures Changes(r, k) && r.nodes[k + 1].disk.slots == r.nodes[k + 1].state.slots && MemoryFollows(r, k + 1)
    ensures SamePool(InForce(r, k + 1), r.nodes[k + 1].disk.slots) <==> Unmoved(r, k + 1)
    ensures !Unmoved(r, k + 1) ==> EarlierPool(InForce(r, k + 1), r.nodes[k + 1].disk.slots)
  {
    AstrayIsOwed(r, k);
    FollowsOn(r, k);
    if !Unmoved(r, k + 1) { EarlierIsNotSame(InForce(r, k + 1), r.nodes[k + 1].disk.slots); }
  }

  // --------------------------------------------------- the three places

  lemma {:induction false} PreviousIsNotLater(r: Run, k: nat)
    requires Valid(r) && k <= |r.steps|
    ensures var before, file := Previous(r, k), r.nodes[k].disk.slots;
            SamePool(before, file) || EarlierPool(before, file)
  {
    if k == 0 {
      SameSelf(r.nodes[0].disk.slots);
    } else {
      var before, file, next := Previous(r, k - 1), r.nodes[k - 1].disk.slots, r.nodes[k].disk.slots;
      PreviousIsNotLater(r, k - 1);
      FileMoves(r, k - 1);
      if !Changes(r, k - 1) { NotLaterThenSame(before, file, next); }
    }
  }

  lemma StaysPassedOver(r: Run, k: nat)
    requires Valid(r) && k < |r.steps| && !TakesEffect(r.steps[k])
    requires PassedOver(InForce(r, k), Previous(r, k), r.nodes[k].disk.slots)
    ensures PassedOver(InForce(r, k + 1), Previous(r, k + 1), r.nodes[k + 1].disk.slots)
  {
    var live, file, next := InForce(r, k), r.nodes[k].disk.slots, r.nodes[k + 1].disk.slots;
    FileMoves(r, k);
    if Changes(r, k) { EarlierTransitive(live, file, next); } else { EarlierThenSame(live, file, next); }
  }

  ghost predicate Placed(r: Run, k: nat)
    requires Valid(r) && k <= |r.steps|
  {
    var live, before, file := InForce(r, k), Previous(r, k), r.nodes[k].disk.slots;
    if Shown(r, k) then LagMeaning(Lag(r, k), live, before, file)
    else if Astray(r, k) then EarlierPool(file, live)
    else PassedOver(live, before, file)
  }

  lemma EffectPlaced(r: Run, k: nat)
    requires Valid(r) && k < |r.steps| && TakesEffect(r.steps[k])
    ensures Placed(r, k + 1)
  {
    EffectOnFileIff(r, k);
    if Behind(r, k + 1) { AstrayIsAhead(r, k + 1); } else { HeldIsSame(r.nodes[k + 1]); }
  }

  lemma LateWritePlaced(r: Run, k: nat)
    requires Valid(r) && k < |r.steps| && Astray(r, k) && WritesPool(r, k) && !Forgotten(r, k + 1) && !Shown(r, k)
    ensures Placed(r, k + 1)
  {
    LateWriteIsLiveIff(r, k);
    AstrayIsAhead(r, k);
  }

  lemma ShownPlaced(r: Run, k: nat)
    requires Valid(r) && k < |r.steps| && !TakesEffect(r.steps[k]) && Shown(r, k) && Placed(r, k)
    ensures Placed(r, k + 1)
  {
    FileMoves(r, k);
    LagGrows(Lag(r, k), InForce(r, k), Previous(r, k), r.nodes[k].disk.slots, r.nodes[k + 1].disk.slots);
  }

  lemma {:induction false} ShownIsNotAstray(r: Run, k: nat)
    requires Valid(r) && k <= |r.steps| && Shown(r, k)
    ensures !Astray(r, k)
  {
    if k > 0 && !TakesEffect(r.steps[k - 1]) && Shown(r, k - 1) { ShownIsNotAstray(r, k - 1); }
  }

  lemma {:induction false} AlwaysPlaced(r: Run, k: nat)
    requires Valid(r) && k <= |r.steps| && (Astray(r, k) || !Forgotten(r, k))
    ensures Placed(r, k)
  {
    if k == 0 {
      SameSelf(r.nodes[0].disk.slots);
    } else if TakesEffect(r.steps[k - 1]) {
      EffectPlaced(r, k - 1);
    } else if Astray(r, k) {
      AstrayIsAhead(r, k);
      if Shown(r, k) { ShownIsNotAstray(r, k); }
    } else if Shown(r, k - 1) {
      AlwaysPlaced(r, k - 1);
      ShownPlaced(r, k - 1);
    } else if Astray(r, k - 1) {
      LateWritePlaced(r, k - 1);
    } else {
      AlwaysPlaced(r, k - 1);
      StaysPassedOver(r, k - 1);
    }
  }

  lemma {:induction false} LiveIsInForce(r: Run, k: nat)
    requires Valid(r) && k <= |r.steps| && r.nodes[0].live == Project(r.nodes[0].disk.slots)
    ensures r.nodes[k].live == Project(InForce(r, k))
  {
    if k > 0 {
      if TakesEffect(r.steps[k - 1]) {
        EffectOnFileIff(r, k - 1);
      } else {
        LiveIsInForce(r, k - 1);
        LiveUnchanged(r, k - 1);
      }
    }
  }

  /**
   At every crash point of every run, unless a crash forgot the live pool and
   another was written since: the live pool is the one on file if and only if
   the file came to hold it and nothing was written after, and the one on file
   or the one before it if and only if the file came to hold it and at most one
   change was written after.
   */
  lemma LiveTrailsByLag(r: Run, k: nat)
    requires Valid(r) && k <= |r.steps| && r.nodes[0].live == Project(r.nodes[0].disk.slots)
    requires Astray(r, k) || !Forgotten(r, k)
    ensures r.nodes[k].live == Project(InForce(r, k))
    ensures SamePool(InForce(r, k), r.nodes[k].disk.slots) <==> Shown(r, k) && Lag(r, k) == 0
    ensures (SamePool(InForce(r, k), r.nodes[k].disk.slots) || SamePool(InForce(r, k), Previous(r, k)))
       <==> Shown(r, k) && Lag(r, k) <= 1
  {
    var live, before, file := InForce(r, k), Previous(r, k), r.nodes[k].disk.slots;
    LiveIsInForce(r, k);
    AlwaysPlaced(r, k);
    if Shown(r, k) {
      LagDecides(Lag(r, k), live, before, file);
    } else {
      PreviousIsNotLater(r, k);
      OffFileDecides(live, before, file);
    }
  }

  /** In particular whenever the last apply to reach the node left its pool on file, whatever came before it. */
  lemma {:induction false} LastApplyIsShown(r: Run, k: nat)
    requires Valid(r) && k <= |r.steps| && LastApplyOnFile(r, k)
    ensures Shown(r, k) && !Forgotten(r, k)
  {
    if k > 0 && !TakesEffect(r.steps[k - 1]) {
      LastApplyIsShown(r, k - 1);
      ShownIsNotAstray(r, k - 1);
    }
  }

  // ----------------------------------------------------- two pools behind

  /** From any one-slot pool: two expiries, an apply rejected after each, and the node is two pools behind. */
  lemma FallsTwoBehind(n: Node, pol: Policy, now: int, later: int, first: Secrets, second: Secrets) returns (r: Run)
    requires CanFork(n, pol, now, first, second) && now + pol.lifetime <= later
    ensures var acts := FallBehindActs(now, later, first, second); ActsOk(n, pol, acts) && r == RunOf(n, pol, acts)
    ensures Valid(r) && r.nodes[0] == n && |r.steps| == 4 && LastApplyOnFile(r, 4) && Shown(r, 4) && Lag(r, 4) == 2
  {
    r := FallsBehind(n, pol, now, later, first, second);
    TwoChanges(r);
  }

  lemma TwoChanges(r: Run)
    requires Valid(r) && |r.steps| == 4 && r.steps[0].PlanStep? && r.steps[2].PlanStep?
    requires r.steps[1] == r.steps[3] == ApplyFails(false) && Changes(r, 0) && Changes(r, 2)
    ensures LastApplyOnFile(r, 4) && Shown(r, 4) && Lag(r, 4) == 2
  {
    LagStep(r, 0);
    LagStep(r, 1);
    LagStep(r, 2);
    LagStep(r, 3);
  }

  lemma LagStep(r: Run, k: nat)
    requires Valid(r) && k < |r.steps| && !TakesEffect(r.steps[k]) && LastApplyOnFile(r, k)
    ensures LastApplyOnFile(r, k + 1) && Shown(r, k + 1)
    ensures Lag(r, k + 1) == Lag(r, k) + if Changes(r, k) then 1 else 0
  {
    LastApplyIsShown(r, k);
  }

  lemma TwoBehindExample() returns (r: Run)
    ensures Valid(r) && r.nodes[0].live == Project(r.nodes[0].disk.slots)
    ensures |r.steps| == 4 && LastApplyOnFile(r, 4) && Shown(r, 4) && Lag(r, 4) == 2
  {
    var m, pol := ForkExample();
    var n := m.(live := Project(m.disk.slots));
    r := FallsTwoBehind(n, pol, 1800, 1800 + pol.lifetime, ExampleDraw('b'), ExampleDraw('c'));
  }
}
