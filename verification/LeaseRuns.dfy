/**
 Whole runs of the lease pool: any interleaving of plans, applies, syncs,
 failures and restarts, with a fixed policy and a clock that does not go back.
 */
module LeaseRuns {
  import opened Prelude
  import opened Authorizations
  import opened LeaseSlots
  import opened LeasePools

  datatype Run = Run(pol: Policy, nodes: seq<Node>, steps: seq<Step>)

  predicate SlotOk(s: Slot, grid: int)
    requires grid > 0
  {
    && OnGrid(s.validUntil, grid)
    && 0 < s.validFrom < s.validUntil <= s.validFrom + NATIVE_LEASE_SECS
    && s.cls == Native
    && "native_" <= s.principalId && OpaqueShape(s.principalId)
    && ValidCredentialId(s.credentialId)
    && ValidUuid(s.vlessUuid)
    && ValidPassword(s.hysteria2Password)
  }

  /** Slots 0.. in order, no more than the pool size, each one well formed and on the grid. */
  predicate PoolOk(st: LeaseState, pol: Policy)
    requires pol.grid > 0
  {
    && |st.slots| <= PoolSize(pol)
    && InOrder(st.slots)
    && forall i :: 0 <= i < |st.slots| ==> SlotOk(st.slots[i], pol.grid)
  }

  predicate SlotsApart(a: Slot, b: Slot)
  {
    a.principalId != b.principalId && a.credentialId != b.credentialId && Lower(a.vlessUuid) != Lower(b.vlessUuid)
  }

  predicate AllApart(slots: seq<Slot>)
  {
    forall i, j :: 0 <= i < j < |slots| ==> SlotsApart(slots[i], slots[j])
  }

  ghost predicate Inv(n: Node, pol: Policy)
    requires pol.grid > 0
  {
    PoolOk(n.state, pol) && PoolOk(n.disk, pol) && AllApart(n.state.slots) && AllApart(n.disk.slots)
  }

  /** A process that has just loaded a file written by this agent. */
  ghost predicate Start(n: Node, pol: Policy)
    requires pol.grid > 0
  {
    Inv(n, pol) && n.state == n.disk && n.remote.None? && !n.appliedHere && 0 < n.clock
  }

  ghost predicate Valid(r: Run)
  {
    && PolicyOk(r.pol)
    && |r.nodes| == |r.steps| + 1
    && Start(r.nodes[0], r.pol)
    && forall i :: 0 <= i < |r.steps| ==>
         Enabled(r.nodes[i], r.pol, r.steps[i]) && r.nodes[i + 1] == Next(r.nodes[i], r.pol, r.steps[i])
  }

  ghost predicate Saves(step: Step)
  {
    match step
    case PlanStep(_, _, saved) => saved
    case ApplySucceeds(saved) => saved
    case SyncStep(_, _, saved) => saved
    case _ => true
  }

  /** Writes of the state file succeed; crashes may still come at any point. */
  ghost predicate Durable(r: Run)
  {
    forall i :: 0 <= i < |r.steps| ==> Saves(r.steps[i])
  }

  // ------------------------------------------------------------ one step

  /** Rotating slots, as numbers, at a plan step. */
  function RotatingAt(n: Node, pol: Policy, now: int): seq<nat>
    requires pol.grid > 0
  {
    SlotsToRotate(n.state, n.remote, now, pol.grid)
  }

  function AskedAt(n: Node, pol: Policy, now: int, draw: nat -> Secrets): Asked
    requires pol.grid > 0
  {
    Asked(RotatingAt(n, pol, now), now, pol, draw)
  }

  lemma PlanFacts(n: Node, pol: Policy, now: int, draw: nat -> Secrets)
    requires PolicyOk(pol) && PoolOk(n.state, pol)
    ensures var (next, changed) := PlanOf(n, pol, now, draw);
            var rotate := RotatingAt(n, pol, now);
            && |next.slots| == PoolSize(pol) && InOrder(next.slots)
            && (forall i :: 0 <= i < |next.slots| ==>
                 next.slots[i] == PlannedSlot(n.state.slots, i, AskedAt(n, pol, now, draw)))
            && (changed <==> |n.state.slots| < PoolSize(pol) || rotate != [])
            && (!changed ==> next == n.state)
            && (changed ==> !next.applied)
            && next.lastRotationAt == if rotate != [] then now else n.state.lastRotationAt
  {
    var rotate := RotatingAt(n, pol, now);
    var stamped := if rotate != [] then n.state.(lastRotationAt := now) else n.state;
    RotationRuleInOrder(n.state, n.remote, now, pol.grid);
    PlannedInOrder(stamped, AskedAt(n, pol, now, draw));
    var next := PlanOf(n, pol, now, draw).0;
    if rotate != [] { assert rotate[0] in rotate; }
    if rotate == [] && |n.state.slots| == PoolSize(pol) { assert next.slots == n.state.slots; }
  }

  lemma MintOk(slot: nat, generation: nat, now: int, pol: Policy, draw: Secrets)
    requires PolicyOk(pol) && 0 < now && WellFormed(draw)
    ensures SlotOk(Mint(slot, generation, now, pol, draw), pol.grid)
  {
    MintWindow(slot, generation, now, pol, draw);
  }

  lemma PlannedSlotOk(slots: seq<Slot>, i: nat, a: Asked)
    requires PolicyOk(a.pol) && 0 < a.now && WellFormed(a.draw(i))
    requires i < |slots| ==> SlotOk(slots[i], a.pol.grid)
    ensures SlotOk(PlannedSlot(slots, i, a), a.pol.grid)
  {
    MintOk(i, 1, a.now, a.pol, a.draw(i));
    if i < |slots| { MintOk(slots[i].slot, slots[i].generation + 1, a.now, a.pol, a.draw(i)); }
  }

  lemma PlannedApart(slots: seq<Slot>, i: nat, j: nat, a: Asked)
    requires a.pol.grid > 0 && i < j < PoolSize(a.pol) && DrawOk(slots, PoolSize(a.pol), a.draw) && AllApart(slots)
    ensures SlotsApart(PlannedSlot(slots, i, a), PlannedSlot(slots, j, a))
  {
    assert Apart(a.draw(i).principalId, a.draw(i).credentialId, a.draw(i).vlessUuid, a.draw(j));
    if i < |slots| { assert Apart(slots[i].principalId, slots[i].credentialId, slots[i].vlessUuid, a.draw(j)); }
    if j < |slots| { assert Apart(slots[j].principalId, slots[j].credentialId, slots[j].vlessUuid, a.draw(i)); }
  }

  lemma PlanKeepsPool(n: Node, pol: Policy, now: int, draw: nat -> Secrets)
    requires PolicyOk(pol) && PoolOk(n.state, pol) && AllApart(n.state.slots)
    requires 0 < now && DrawOk(n.state.slots, PoolSize(pol), draw)
    ensures PoolOk(PlanOf(n, pol, now, draw).0, pol) && AllApart(PlanOf(n, pol, now, draw).0.slots)
  {
    PlanFacts(n, pol, now, draw);
    var next := PlanOf(n, pol, now, draw).0;
    forall i | 0 <= i < |next.slots| ensures SlotOk(next.slots[i], pol.grid) {
      PlannedSlotOk(n.state.slots, i, AskedAt(n, pol, now, draw));
    }
    forall i, j | 0 <= i < j < |next.slots| ensures SlotsApart(next.slots[i], next.slots[j]) {
      PlannedApart(n.state.slots, i, j, AskedAt(n, pol, now, draw));
    }
  }

  lemma SyncFacts(n: Node, pol: Policy, later: int, view: RemoteView)
    requires PolicyOk(pol)
    ensures var next := SyncOf(n, pol, later, view);
            && |next.slots| == |n.state.slots| && next.lastRotationAt == n.state.lastRotationAt
            && (forall i :: 0 <= i < |next.slots| ==>
                 next.slots[i] == ExtendSlot(MarkSlot(n.state.slots[i], view), view, later, pol))
            && (next.applied ==> n.state.applied && Project(next.slots) == Project(n.state.slots))
  {
    var marked := Marked(n.state, view);
    var next := SyncOf(n, pol, later, view);
    CountExtendedZero(marked.slots, view, later, pol);
    if next.applied {
      assert forall i :: 0 <= i < |next.slots| ==> Extension(marked.slots[i], view, later, pol).None?;
      assert forall i :: 0 <= i < |next.slots| ==> next.slots[i] == marked.slots[i];
      assert Project(next.slots) == Project(n.state.slots);
    }
  }

  lemma ExtendOk(s: Slot, view: RemoteView, later: int, pol: Policy)
    requires PolicyOk(pol) && SlotOk(s, pol.grid) && 0 < later
    ensures SlotOk(ExtendSlot(MarkSlot(s, view), view, later, pol), pol.grid)
  {
    if Extension(MarkSlot(s, view), view, later, pol).Some? {
      ExtensionBounds(MarkSlot(s, view), view, later, pol);
    }
  }

  lemma SyncKeepsPool(n: Node, pol: Policy, later: int, view: RemoteView)
    requires PolicyOk(pol) && PoolOk(n.state, pol) && AllApart(n.state.slots) && 0 < later
    ensures PoolOk(SyncOf(n, pol, later, view), pol) && AllApart(SyncOf(n, pol, later, view).slots)
  {
    SyncFacts(n, pol, later, view);
    forall i | 0 <= i < |n.state.slots| ensures SlotOk(SyncOf(n, pol, later, view).slots[i], pol.grid) {
      ExtendOk(n.state.slots[i], view, later, pol);
    }
  }

  /** A file this agent wrote loads as it was written. */
  lemma LoadIsIdentity(st: LeaseState, pol: Policy, load: nat -> Secrets)
    requires pol.grid > 0 && PoolOk(st, pol)
    ensures Loaded(st, load) == st
  {
    forall i | 0 <= i < |st.slots| ensures Loaded(st, load).slots[i] == st.slots[i] {
      LoadedSlot(st.slots[i], pol.grid, load(i));
    }
    assert Loaded(st, load).slots == st.slots;
  }

  lemma LoadedSlot(s: Slot, grid: int, draw: Secrets)
    requires grid > 0 && SlotOk(s, grid)
    ensures MigrateSlot(s, draw) == s
  {}

  /** A slot of the schema before authorizations: secrets and an end on the grid, but no ids and no start. */
  predicate LegacySlot(s: Slot, grid: int)
    requires grid > 0
  {
    && s.principalId == "" && s.credentialId == "" && s.cls == Native && s.validFrom == 0
    && OnGrid(s.validUntil, grid) && NATIVE_LEASE_SECS < s.validUntil
    && ValidUuid(s.vlessUuid) && ValidPassword(s.hysteria2Password)
  }

  /** Such a file loads as a well-formed pool with every secret, generation and end kept. */
  lemma LoadMigrates(st: LeaseState, pol: Policy, load: nat -> Secrets)
    requires pol.grid > 0 && |st.slots| <= PoolSize(pol) && InOrder(st.slots)
    requires forall i :: 0 <= i < |st.slots| ==> LegacySlot(st.slots[i], pol.grid) && WellFormed(load(i))
    ensures PoolOk(Loaded(st, load), pol)
    ensures forall i :: 0 <= i < |st.slots| ==>
              var s, m := st.slots[i], Loaded(st, load).slots[i];
              && m.principalId == load(i).principalId && m.credentialId == load(i).credentialId
              && m.validFrom == s.validUntil - NATIVE_LEASE_SECS
              && m == s.(principalId := m.principalId, credentialId := m.credentialId, validFrom := m.validFrom)
  {
    forall i | 0 <= i < |st.slots| ensures SlotOk(Loaded(st, load).slots[i], pol.grid) {
      LegacyLoads(st.slots[i], pol.grid, load(i));
    }
  }

  lemma LegacyLoads(s: Slot, grid: int, draw: Secrets)
    requires grid > 0 && LegacySlot(s, grid) && WellFormed(draw)
    ensures SlotOk(MigrateSlot(s, draw), grid)
  {}

  lemma StepKeepsInv(n: Node, pol: Policy, step: Step)
    requires PolicyOk(pol) && Inv(n, pol) && 0 < n.clock && Enabled(n, pol, step)
    ensures Inv(Next(n, pol, step), pol) && n.clock <= Next(n, pol, step).clock
  {
    match step
    case PlanStep(now, draw, _) => PlanKeepsPool(n, pol, now, draw);
    case SyncStep(later, answer, _) =>
      if AnswerReadable(answer) { SyncKeepsPool(n, pol, later, ViewOf(answer)); }
    case Restart(load) => LoadIsIdentity(n.disk, pol, load);
    case _ =>
  }

  // ---------------------------------------------------------- whole runs

  /** Memory and file hold a well-formed pool at every point of every run. */
  lemma {:induction false} PoolAlwaysOk(r: Run, k: nat)
    requires Valid(r) && k <= |r.steps|
    ensures Inv(r.nodes[k], r.pol) && 0 < r.nodes[k].clock
  {
    if k > 0 {
      PoolAlwaysOk(r, k - 1);
      StepKeepsInv(r.nodes[k - 1], r.pol, r.steps[k - 1]);
    }
  }

  lemma {:induction false} ClockAdvances(r: Run, i: nat, j: nat)
    requires Valid(r) && i <= j <= |r.steps|
    ensures r.nodes[i].clock <= r.nodes[j].clock
    decreases j
  {
    if i < j {
      ClockAdvances(r, i, j - 1);
      PoolAlwaysOk(r, j - 1);
      StepKeepsInv(r.nodes[j - 1], r.pol, r.steps[j - 1]);
    }
  }

  /** After planning at `now` the pool is full and nothing in it has expired. */
  lemma PlanLeavesNothingExpired(r: Run, k: nat)
    requires Valid(r) && k < |r.steps| && r.steps[k].PlanStep?
    ensures var after := r.nodes[k + 1].state.slots;
            && |after| == PoolSize(r.pol)
            && forall i :: 0 <= i < |after| ==> after[i].validUntil > r.steps[k].now
  {
    var n, now := r.nodes[k], r.steps[k].now;
    PoolAlwaysOk(r, k);
    PlanFacts(n, r.pol, now, r.steps[k].draw);
    RotationRuleInOrder(n.state, n.remote, now, r.pol.grid);
    var after := r.nodes[k + 1].state.slots;
    forall i | 0 <= i < |after| ensures after[i].validUntil > now {
      PlannedNotExpired(n, r.pol, now, r.steps[k].draw, i);
    }
  }

  lemma PlannedNotExpired(n: Node, pol: Policy, now: int, draw: nat -> Secrets, i: nat)
    requires PolicyOk(pol) && PoolOk(n.state, pol)
    ensures PlannedSlot(n.state.slots, i, AskedAt(n, pol, now, draw)).validUntil > now
  {
    RoundDownFacts(now + pol.lifetime, pol.grid);
    RotationRuleInOrder(n.state, n.remote, now, pol.grid);
    if i < |n.state.slots| && n.state.slots[i].validUntil <= now {
      assert WhyRotate(n.state.slots[i], n.remote, now) == Some(Expired);
      assert SomeWhy(n.state.slots, n.remote, now, Expired);
    }
  }

  // ------------------------------------- one credential per generation

  /** What may happen to a logical slot: same principal, later generations, and within one
      generation the same credential with an end that only moves forward. */
  predicate Evolves(a: Slot, b: Slot)
  {
    && a.slot == b.slot && a.principalId == b.principalId && a.generation <= b.generation
    && (a.generation == b.generation ==>
         && a.credentialId == b.credentialId && a.vlessUuid == b.vlessUuid
         && a.hysteria2Password == b.hysteria2Password && a.validUntil <= b.validUntil)
  }

  predicate PoolEvolves(a: seq<Slot>, b: seq<Slot>)
  {
    |a| <= |b| && forall i :: 0 <= i < |a| ==> Evolves(a[i], b[i])
  }

  lemma SyncEvolves(n: Node, pol: Policy, later: int, view: RemoteView)
    requires PolicyOk(pol)
    ensures PoolEvolves(n.state.slots, SyncOf(n, pol, later, view).slots)
  {
    SyncFacts(n, pol, later, view);
  }

  lemma PlanEvolves(n: Node, pol: Policy, now: int, draw: nat -> Secrets)
    requires PolicyOk(pol) && PoolOk(n.state, pol)
    ensures PoolEvolves(n.state.slots, PlanOf(n, pol, now, draw).0.slots)
  {
    PlanFacts(n, pol, now, draw);
  }

  /** When writes succeed, memory and file are the same at every point. */
  lemma {:induction false} DurableMeansSaved(r: Run, k: nat)
    requires Valid(r) && Durable(r) && k <= |r.steps|
    ensures r.nodes[k].state == r.nodes[k].disk
  {
    if k > 0 {
      DurableMeansSaved(r, k - 1);
      PoolAlwaysOk(r, k - 1);
      var n, step := r.nodes[k - 1], r.steps[k - 1];
      assert Saves(step);
      match step
      case PlanStep(now, draw, _) => PlanFacts(n, r.pol, now, draw);
      case Restart(load) => LoadIsIdentity(n.disk, r.pol, load);
      case _ =>
    }
  }

  lemma EvolvesTransitive(a: seq<Slot>, b: seq<Slot>, c: seq<Slot>)
    requires PoolEvolves(a, b) && PoolEvolves(b, c)
    ensures PoolEvolves(a, c)
  {
    forall i | 0 <= i < |a| ensures Evolves(a[i], c[i]) {
      assert Evolves(a[i], b[i]) && Evolves(b[i], c[i]);
    }
  }

  // ---------------------------------------------------- reported is live

  predicate LiveIfApplied(n: Node)
  {
    !NeedsApply(n) ==> n.live == Project(n.state.slots)
  }

  lemma StepKeepsLive(n: Node, pol: Policy, step: Step)
    requires PolicyOk(pol) && PoolOk(n.state, pol) && LiveIfApplied(n)
    ensures LiveIfApplied(Next(n, pol, step))
  {
    match step
    case PlanStep(now, draw, _) => PlanFacts(n, pol, now, draw);
    case SyncStep(later, answer, _) =>
      if AnswerReadable(answer) { SyncFacts(n, pol, later, ViewOf(answer)); }
    case _ =>
  }

  /** A pool marked applied by this process is exactly what is live. */
  lemma {:induction false} AppliedIsLive(r: Run, k: nat)
    requires Valid(r) && k <= |r.steps|
    ensures !NeedsApply(r.nodes[k]) ==> r.nodes[k].live == Project(r.nodes[k].state.slots)
  {
    if k > 0 {
      AppliedIsLive(r, k - 1);
      PoolAlwaysOk(r, k - 1);
      StepKeepsLive(r.nodes[k - 1], r.pol, r.steps[k - 1]);
    }
  }

  /**
   In every run, failed writes, failed applies and crashes included: whenever
   a body is sent, it names slot for slot the credential, secrets and bounds
   that are live at that moment.
   */
  lemma ReportedIsLive(r: Run, k: nat)
    requires Valid(r) && k < |r.steps| && (r.steps[k].SyncStep? || r.steps[k].SyncFails?)
    ensures var body, live := SyncBody(r.nodes[k].state), r.nodes[k].live;
            && |body| == |live|
            && forall i :: 0 <= i < |body| ==>
                 && body[i].slot == live[i].slot == i
                 && body[i].principalId == live[i].principalId && body[i].credentialId == live[i].credentialId
                 && body[i].validFrom == live[i].validFrom && body[i].validUntil == live[i].expiresAt
                 && (body[i].secrets.Some? ==> body[i].secrets.value == (live[i].vlessUuid, live[i].hysteria2Password))
  {
    assert Enabled(r.nodes[k], r.pol, r.steps[k]);
    AppliedIsLive(r, k);
    PoolAlwaysOk(r, k);
  }

  /** A restart starts over from the file, with nothing else remembered, and leaves what is live alone. */
  lemma RestartStartsOver(r: Run, k: nat)
    requires Valid(r) && k < |r.steps| && r.steps[k].Restart?
    ensures Start(r.nodes[k + 1], r.pol) && r.nodes[k + 1].disk == r.nodes[k].disk
    ensures r.nodes[k + 1].live == r.nodes[k].live && r.nodes[k + 1].clock == r.nodes[k].clock
  {
    PoolAlwaysOk(r, k);
    ClockAdvances(r, 0, k);
    LoadIsIdentity(r.nodes[k].disk, r.pol, r.steps[k].load);
  }

  /** The file changes only by a write that gets through, and then to what memory holds. */
  lemma FileChangesByWrites(r: Run, k: nat)
    requires Valid(r) && k < |r.steps| && r.nodes[k + 1].disk != r.nodes[k].disk
    ensures Saves(r.steps[k]) && !r.steps[k].Restart? && r.nodes[k + 1].disk == r.nodes[k + 1].state
  {}

  // ----------------------------------------- the marks of a reported slot

  /** The step sets the marks of every slot: a readable answer, or a start from the file. */
  ghost predicate SetsMarks(step: Step)
  {
    step.Restart? || (step.SyncStep? && AnswerReadable(step.answer))
  }

  /** The last point up to `k` at which the marks of every slot were set. */
  ghost function MarkedAt(steps: seq<Step>, k: nat): (j: nat)
    requires k <= |steps|
    ensures j <= k && (j == 0 || SetsMarks(steps[j - 1])) && forall i :: j <= i < k ==> !SetsMarks(steps[i])
  {
    if k == 0 || SetsMarks(steps[k - 1]) then k else MarkedAt(steps, k - 1)
  }

  /** Slots keep their marks, and a slot or generation made since has none. */
  predicate MarksKept(was: seq<Slot>, slots: seq<Slot>)
  {
    && |was| <= |slots|
    && (forall i :: 0 <= i < |was| ==> was[i].generation <= slots[i].generation)
    && forall i :: 0 <= i < |slots| ==> MarkKept(was, slots[i], i)
  }

  predicate MarkKept(was: seq<Slot>, s: Slot, i: nat)
  {
    if i < |was| && was[i].generation == s.generation
    then s.reported == was[i].reported && s.revoked == was[i].revoked
    else !s.reported && !s.revoked
  }

  lemma PlanKeepsMarks(n: Node, pol: Policy, now: int, draw: nat -> Secrets, was: seq<Slot>)
    requires PolicyOk(pol) && PoolOk(n.state, pol) && MarksKept(was, n.state.slots)
    ensures MarksKept(was, PlanOf(n, pol, now, draw).0.slots)
  {
    PlanFacts(n, pol, now, draw);
    var next := PlanOf(n, pol, now, draw).0.slots;
    RotationRuleInOrder(n.state, n.remote, now, pol.grid);
    forall i | 0 <= i < |next| ensures MarkKept(was, next[i], i) {
      if i < |n.state.slots| { assert MarkKept(was, n.state.slots[i], i); }
    }
  }

  lemma StepKeepsMarks(r: Run, k: nat, was: seq<Slot>)
    requires Valid(r) && k < |r.steps| && !SetsMarks(r.steps[k]) && MarksKept(was, r.nodes[k].state.slots)
    ensures MarksKept(was, r.nodes[k + 1].state.slots) && r.nodes[k + 1].remote == r.nodes[k].remote
  {
    PoolAlwaysOk(r, k);
    if r.steps[k].PlanStep? { PlanKeepsMarks(r.nodes[k], r.pol, r.steps[k].now, r.steps[k].draw, was); }
  }

  lemma MarksAlwaysKept(r: Run, k: nat)
    requires Valid(r) && k <= |r.steps|
    ensures MarksKept(r.nodes[MarkedAt(r.steps, k)].state.slots, r.nodes[k].state.slots)
    ensures r.nodes[k].remote == r.nodes[MarkedAt(r.steps, k)].remote
  {
    var j := MarkedAt(r.steps, k);
    var i := j;
    MarksSelf(r.nodes[j].state.slots);
    while i < k
      invariant j <= i <= k && r.nodes[i].remote == r.nodes[j].remote
      invariant MarksKept(r.nodes[j].state.slots, r.nodes[i].state.slots)
    {
      StepKeepsMarks(r, i, r.nodes[j].state.slots);
      i := i + 1;
    }
  }

  lemma MarksSelf(slots: seq<Slot>)
    ensures MarksKept(slots, slots)
  {}

  /** A readable answer marks each slot as it knows that generation. */
  lemma AnswerSetsMarks(r: Run, k: nat, i: nat)
    requires Valid(r) && k < |r.steps| && SetsMarks(r.steps[k]) && r.nodes[k + 1].remote.Some?
    requires i < |r.nodes[k + 1].state.slots|
    ensures var s := r.nodes[k + 1].state.slots[i]; s == MarkSlot(s, r.nodes[k + 1].remote.value)
  {
    SyncFacts(r.nodes[k], r.pol, r.steps[k].later, ViewOf(r.steps[k].answer));
  }

  predicate Stored(view: RemoteView, slot: nat, generation: nat)
  {
    slot in view.slots && view.slots[slot].generation == generation
  }

  /**
   In every run, once this process has heard an answer it could read: a body
   calls a slot revoked, and leaves its secrets out, if and only if the last
   such answer revoked it, or stored it, in the generation being sent, and
   that generation was not made after the answer.
   */
  lemma ReportedMarks(r: Run, k: nat, i: nat)
    requires Valid(r) && k < |r.steps| && (r.steps[k].SyncStep? || r.steps[k].SyncFails?)
    requires i < |r.nodes[k].state.slots| && r.nodes[k].remote.Some?
    ensures var item, view := SyncBody(r.nodes[k].state)[i], r.nodes[k].remote.value;
            var was := r.nodes[MarkedAt(r.steps, k)].state.slots;
            var heard := i < |was| && was[i].generation == item.generation;
            && (item.secrets.None? <==> heard && Stored(view, i, item.generation))
            && (item.revoked <==> heard && Stored(view, i, item.generation) && view.slots[i].state == "revoked")
  {
    var was := r.nodes[MarkedAt(r.steps, k)].state.slots;
    MarksAlwaysKept(r, k);
    PoolAlwaysOk(r, k);
    if i < |was| { HeardMarks(r, k, i); }
    ItemMarks(was, r.nodes[k].state.slots, i, r.nodes[k].remote.value);
  }

  lemma HeardMarks(r: Run, k: nat, i: nat)
    requires Valid(r) && k <= |r.steps| && r.nodes[k].remote.Some?
    requires i < |r.nodes[MarkedAt(r.steps, k)].state.slots|
    ensures var s := r.nodes[MarkedAt(r.steps, k)].state.slots[i];
            s.slot == i && s == MarkSlot(s, r.nodes[k].remote.value)
  {
    var j := MarkedAt(r.steps, k);
    MarksAlwaysKept(r, k);
    PoolAlwaysOk(r, j);
    AnswerSetsMarks(r, j - 1, i);
  }

  lemma ItemMarks(was: seq<Slot>, slots: seq<Slot>, i: nat, view: RemoteView)
    requires MarksKept(was, slots) && i < |slots| && slots[i].slot == i
    requires i < |was| ==> was[i].slot == i && was[i] == MarkSlot(was[i], view)
    ensures var item := ToReport(slots[i]);
            var heard := i < |was| && was[i].generation == item.generation;
            && (item.secrets.None? <==> heard && Stored(view, i, item.generation))
            && (item.revoked <==> heard && Stored(view, i, item.generation) && view.slots[i].state == "revoked")
  {
    assert MarkKept(was, slots[i], i);
  }
}
