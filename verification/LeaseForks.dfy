/**
 What a failed write of the state file costs, as histories of whole ticks: a
 generation issued twice, and a live pool two changes behind its file.
 */
module LeaseForks {
  import opened Prelude
  import opened Authorizations
  import opened LeaseSlots
  import opened LeasePools
  import opened LeaseRuns
  import opened LeaseTicks
  import opened LeaseDurability

  function ExampleDraw(tag: char): Secrets
  {
    Secrets("native_0000" + [tag], "cred_000000" + [tag],
            "00000000-0000-4000-8000-00000000000" + [tag], "passwordpassword" + [tag])
  }

  lemma ExampleDrawOk(tag: char)
    requires 'a' <= tag <= 'f'
    ensures WellFormed(ExampleDraw(tag))
  {
    var d := ExampleDraw(tag);
    assert d.principalId[..7] == "native_";
    assert d.credentialId[..5] == "cred_";
    ExampleUuidOk(tag);
  }

  lemma ExampleUuidOk(tag: char)
    requires 'a' <= tag <= 'f'
    ensures ValidUuid(ExampleDraw(tag).vlessUuid)
  {
    var u := ExampleDraw(tag).vlessUuid;
    assert u[..35] == "00000000-0000-4000-8000-00000000000" && u[35] == tag;
  }

  lemma ExampleDrawsApart(a: char, b: char)
    requires 'a' <= a <= 'f' && 'a' <= b <= 'f' && a != b
    ensures var x := ExampleDraw(a); Apart(x.principalId, x.credentialId, x.vlessUuid, ExampleDraw(b))
  {
    var x, y := ExampleDraw(a), ExampleDraw(b);
    assert x.principalId[11] == a && y.principalId[11] == b;
    assert x.credentialId[11] == a && y.credentialId[11] == b;
    assert Lower(x.vlessUuid)[35] == a && Lower(y.vlessUuid)[35] == b;
  }

  /** A one-slot pool whose slot has ended rotates it. */
  lemma ExpiredSlotRotates(n: Node, pol: Policy, now: int, draw: nat -> Secrets)
    requires PolicyOk(pol) && PoolOk(n.state, pol) && |n.state.slots| == 1 == PoolSize(pol)
    requires n.state.slots[0].validUntil <= now
    ensures PlanOf(n, pol, now, draw)
         == (LeaseState([Rotated(n.state.slots[0], now, pol, draw(0))], false, now), true)
  {
    assert WhyRotate(n.state.slots[0], n.remote, now) == Some(Expired);
    assert SomeWhy(n.state.slots, n.remote, now, Expired);
    RotationRuleInOrder(n.state, n.remote, now, pol.grid);
    PlanFacts(n, pol, now, draw);
    var next := PlanOf(n, pol, now, draw).0;
    assert next.slots == [Rotated(n.state.slots[0], now, pol, draw(0))];
  }

  function Always(d: Secrets): nat -> Secrets
  {
    (i: nat) => d
  }

  ghost predicate CanFork(n: Node, pol: Policy, now: int, first: Secrets, second: Secrets)
  {
    && PolicyOk(pol) && Start(n, pol) && |n.state.slots| == 1 == PoolSize(pol)
    && n.state.slots[0].validUntil <= now && n.clock <= now
    && DrawOk(n.state.slots, 1, Always(first)) && DrawOk(n.state.slots, 1, Always(second))
    && Apart(first.principalId, first.credentialId, first.vlessUuid, second)
  }

  /** Such pools exist. */
  lemma ForkExample() returns (n: Node, pol: Policy)
    ensures CanFork(n, pol, 1800, ExampleDraw('b'), ExampleDraw('c'))
    ensures ExampleDraw('b').credentialId != ExampleDraw('c').credentialId
  {
    var d := ExampleDraw('a');
    ExampleDrawOk('a');
    ExampleDrawOk('b');
    ExampleDrawOk('c');
    ExampleDrawsApart('a', 'b');
    ExampleDrawsApart('a', 'c');
    ExampleDrawsApart('b', 'c');
    pol := Policy(1, 1800, 600);
    var s := Slot(0, 1, 1800, d.principalId, d.credentialId, Native, 600, false,
                  d.vlessUuid, d.hysteria2Password, true);
    assert SlotOk(s, 600);
    var file := LeaseState([s], true, 0);
    n := Node(file, None, false, file, [], 1800);
  }

  // ----------------------------------------------------------- the ticks

  /** A tick at `now` that reaches the control plane for nothing but, perhaps, a lost answer. */
  function TickAt(now: int, draw: Secrets, planSaved: bool, apply: ApplyOutcome, syncDue: bool): Env
  {
    Env(now, Always(draw), planSaved, apply, false, syncDue, None, now, false)
  }

  /** One ended slot, nothing heard from the control plane. */
  ghost predicate Ended(n: Node, pol: Policy, now: int)
  {
    && PolicyOk(pol) && PoolOk(n.state, pol) && |n.state.slots| == 1 == PoolSize(pol) && n.remote.None?
    && n.state.slots[0].validUntil <= now
  }

  /** One slot minted at `now`, nothing heard from the control plane. */
  ghost predicate Fresh(n: Node, pol: Policy, now: int)
  {
    && PolicyOk(pol) && PoolOk(n.state, pol) && |n.state.slots| == 1 == PoolSize(pol) && n.remote.None?
    && n.clock == now && now < n.state.slots[0].validUntil - DEFAULT_MIN_REMAINING_SECS
  }

  /** An ended slot, at a clock and with draws fit for rotating it. */
  ghost predicate Rotating(n: Node, pol: Policy, now: int, draw: Secrets)
  {
    && Ended(n, pol, now) && AllApart(n.state.slots) && 0 < now && n.clock <= now
    && DrawOk(n.state.slots, 1, Always(draw))
  }

  /** A fresh slot, with draws fit for a tick that will not use them. */
  ghost predicate Idle(n: Node, pol: Policy, now: int, draw: Secrets)
  {
    Fresh(n, pol, now) && DrawOk(n.state.slots, 1, Always(draw))
  }

  /** `m` holds the next generation of the slot of `n`. */
  ghost predicate RotatedTo(n: Node, pol: Policy, now: int, draw: Secrets, m: Node)
    requires Ended(n, pol, now)
  {
    && Fresh(m, pol, now) && m.state == LeaseState([Rotated(n.state.slots[0], now, pol, draw)], false, now)
    && m.state.slots[0].validUntil <= now + pol.lifetime
  }

  lemma FreshStays(n: Node, pol: Policy, now: int, draw: nat -> Secrets, saved: bool)
    requires Fresh(n, pol, now)
    ensures RotatingAt(n, pol, now) == [] && PlanOf(n, pol, now, draw) == (n.state, false)
    ensures Next(n, pol, PlanStep(now, draw, saved)) == n
  {
    assert WhyRotate(n.state.slots[0], n.remote, now).None?;
    RotationRuleInOrder(n.state, n.remote, now, pol.grid);
    PlanFacts(n, pol, now, draw);
  }

  lemma EndedRotates(n: Node, pol: Policy, now: int, draw: Secrets, saved: bool) returns (m: Node)
    requires Ended(n, pol, now) && 0 < now && DrawOk(n.state.slots, 1, Always(draw)) && AllApart(n.state.slots)
    ensures PlanOf(n, pol, now, Always(draw)).1 && m == Next(n, pol, PlanStep(now, Always(draw), saved))
    ensures m.state == LeaseState([Rotated(n.state.slots[0], now, pol, draw)], false, now) && Fresh(m, pol, now)
    ensures m.state.slots[0].validUntil <= now + pol.lifetime
    ensures m == n.(state := m.state, disk := if saved then m.state else n.disk, clock := now)
  {
    ExpiredSlotRotates(n, pol, now, Always(draw));
    m := Next(n, pol, PlanStep(now, Always(draw), saved));
    PlanKeepsPool(n, pol, now, Always(draw));
    RoundDownFacts(now + pol.lifetime, pol.grid);
  }

  lemma RotatedDrawOk(s: Slot, now: int, pol: Policy, first: Secrets, second: Secrets)
    requires pol.grid > 0 && DrawOk([s], 1, Always(second))
    requires Apart(first.principalId, first.credentialId, first.vlessUuid, second)
    ensures DrawOk([Rotated(s, now, pol, first)], 1, Always(second))
  {
    assert Apart([s][0].principalId, [s][0].credentialId, [s][0].vlessUuid, Always(second)(0));
  }

  /** A rotation whose write fails ends its tick. */
  lemma LostPlanTick(n: Node, acts: seq<Act>, r: Run, now: int, draw: Secrets) returns (m: Node)
    requires Went(n, r.pol, acts, r) && r.nodes != [] && Rotating(Last(r), r.pol, now, draw)
    ensures Went(n, r.pol, acts + [Tick(TickAt(now, draw, false, Rejected, false))],
                 Run(r.pol, r.nodes + [m], r.steps + [PlanStep(now, Always(draw), false)]))
    ensures PlanOf(Last(r), r.pol, now, Always(draw)).1
    ensures m == Next(Last(r), r.pol, PlanStep(now, Always(draw), false))
    ensures RotatedTo(Last(r), r.pol, now, draw, m) && m.disk == Last(r).disk
  {
    var act, step := Tick(TickAt(now, draw, false, Rejected, false)), PlanStep(now, Always(draw), false);
    m := EndedRotates(Last(r), r.pol, now, draw, false);
    TraceOne(Last(r), r.pol, step);
    assert ActSteps(Last(r), r.pol, act) == [step];
    WentOn(n, r.pol, acts, r, act, [step], [m]);
  }

  /** A rotation that is written and whose apply is rejected. */
  lemma RejectedTick(n: Node, acts: seq<Act>, r: Run, now: int, draw: Secrets) returns (m: Node)
    requires Went(n, r.pol, acts, r) && r.nodes != [] && Rotating(Last(r), r.pol, now, draw)
    ensures Went(n, r.pol, acts + [Tick(TickAt(now, draw, true, Rejected, false))],
                 Run(r.pol, r.nodes + [m, m], r.steps + [PlanStep(now, Always(draw), true), ApplyFails(false)]))
    ensures PlanOf(Last(r), r.pol, now, Always(draw)).1
    ensures RotatedTo(Last(r), r.pol, now, draw, m)
  {
    var act, step := Tick(TickAt(now, draw, true, Rejected, false)), PlanStep(now, Always(draw), true);
    m := EndedRotates(Last(r), r.pol, now, draw, true);
    TraceTwo(Last(r), r.pol, step, ApplyFails(false));
    assert ActSteps(Last(r), r.pol, act) == [step, ApplyFails(false)];
    WentOn(n, r.pol, acts, r, act, [step, ApplyFails(false)], [m, m]);
  }

  /** A tick that finds an unapplied pool, plans nothing new and applies it without being able to say so on file. */
  lemma AppliedTick(n: Node, acts: seq<Act>, r: Run, now: int, draw: Secrets) returns (m: Node)
    requires Went(n, r.pol, acts, r) && r.nodes != [] && Idle(Last(r), r.pol, now, draw) && !Last(r).state.applied
    ensures Went(n, r.pol, acts + [Tick(TickAt(now, draw, false, ProvenLive, false))],
                 Run(r.pol, r.nodes + [Last(r), m],
                     r.steps + [PlanStep(now, Always(draw), false), ApplySucceeds(false)]))
    ensures var l := Last(r);
            m == l.(state := l.state.(applied := true), appliedHere := true, live := Project(l.state.slots))
    ensures Idle(m, r.pol, now, draw)
  {
    var act, step := Tick(TickAt(now, draw, false, ProvenLive, false)), PlanStep(now, Always(draw), false);
    FreshStays(Last(r), r.pol, now, Always(draw), false);
    m := Next(Last(r), r.pol, ApplySucceeds(false));
    TraceTwo(Last(r), r.pol, step, ApplySucceeds(false));
    assert ActSteps(Last(r), r.pol, act) == [step, ApplySucceeds(false)];
    WentOn(n, r.pol, acts, r, act, [step, ApplySucceeds(false)], [Last(r), m]);
  }

  /** A tick that only reports, and hears nothing. */
  lemma ReportedTick(n: Node, acts: seq<Act>, r: Run, now: int, draw: Secrets)
    requires Went(n, r.pol, acts, r) && r.nodes != [] && Idle(Last(r), r.pol, now, draw) && !NeedsApply(Last(r))
    ensures Went(n, r.pol, acts + [Tick(TickAt(now, draw, false, Rejected, true))],
                 Run(r.pol, r.nodes + [Last(r), Last(r)], r.steps + [PlanStep(now, Always(draw), false), SyncFails]))
  {
    var act, step := Tick(TickAt(now, draw, false, Rejected, true)), PlanStep(now, Always(draw), false);
    FreshStays(Last(r), r.pol, now, Always(draw), false);
    TraceTwo(Last(r), r.pol, step, SyncFails);
    assert ActSteps(Last(r), r.pol, act) == [step, SyncFails];
    WentOn(n, r.pol, acts, r, act, [step, SyncFails], [Last(r), Last(r)]);
  }

  /** A crash before a tick does anything. */
  lemma Crashed(n: Node, acts: seq<Act>, r: Run, now: int, draw: Secrets) returns (m: Node)
    requires Went(n, r.pol, acts, r) && r.nodes != [] && Idle(Last(r), r.pol, now, draw)
    requires PoolOk(Last(r).disk, r.pol)
    ensures Went(n, r.pol, acts + [Crash(TickAt(now, draw, false, Rejected, false), 0, Always(draw))],
                 Run(r.pol, r.nodes + [m], r.steps + [Restart(Always(draw))]))
    ensures m == Last(r).(state := Last(r).disk, remote := None, appliedHere := false)
  {
    var act, step := Crash(TickAt(now, draw, false, Rejected, false), 0, Always(draw)), Restart(Always(draw));
    LoadIsIdentity(Last(r).disk, r.pol, Always(draw));
    m := Next(Last(r), r.pol, step);
    TraceOne(Last(r), r.pol, step);
    CrashAtOnce(TickSteps(Last(r), r.pol, act.env), step);
    WentOn(n, r.pol, acts, r, act, [step], [m]);
  }

  lemma CrashAtOnce(steps: seq<Step>, step: Step)
    ensures steps[..Min(0, |steps|)] + [step] == [step]
  {}

  lemma TraceOne(n: Node, pol: Policy, a: Step)
    requires pol.grid > 0
    ensures Trace(n, pol, [a]) == [n] + [Next(n, pol, a)]
  {
    assert [a][1..] == [];
  }

  lemma TraceTwo(n: Node, pol: Policy, a: Step, b: Step)
    requires pol.grid > 0
    ensures Trace(n, pol, [a, b]) == [n] + [Next(n, pol, a), Next(Next(n, pol, a), pol, b)]
  {
    assert [a, b][1..] == [b];
    TraceOne(Next(n, pol, a), pol, b);
  }

  lemma NothingYet(n: Node, pol: Policy) returns (r: Run)
    requires pol.grid > 0
    ensures r == Run(pol, [n], []) && Went(n, pol, [], r)
  {
    r := RunOf(n, pol, []);
  }

  // ------------------------------------------------------- a forked generation

  /** A rotation whose write fails, applied, reported, a crash, and a second rotation. */
  function ForkActs(now: int, first: Secrets, second: Secrets): seq<Act>
  {
    [Tick(TickAt(now, first, false, Rejected, false)), Tick(TickAt(now, second, false, ProvenLive, false)),
     Tick(TickAt(now, second, false, Rejected, true)),
     Crash(TickAt(now, second, false, Rejected, false), 0, Always(second)),
     Tick(TickAt(now, second, true, Rejected, false))]
  }

  function ForkSteps(now: int, first: Secrets, second: Secrets): seq<Step>
  {
    [PlanStep(now, Always(first), false), PlanStep(now, Always(second), false), ApplySucceeds(false),
     PlanStep(now, Always(second), false), SyncFails,
     Restart(Always(second)), PlanStep(now, Always(second), true), ApplyFails(false)]
  }

  /** The first tick: rotated, and nothing of it on file. */
  lemma Lost(n: Node, pol: Policy, now: int, first: Secrets, second: Secrets) returns (r: Run)
    requires CanFork(n, pol, now, first, second)
    ensures r.pol == pol && |r.nodes| == 2 && r.nodes[0] == n
    ensures Went(n, pol, ForkActs(now, first, second)[..1], r) && r.steps == ForkSteps(now, first, second)[..1]
    ensures PlanOf(n, pol, now, Always(first)).1 && RotatedTo(n, pol, now, first, r.nodes[1])
    ensures r.nodes[1].disk == n.disk && Idle(r.nodes[1], pol, now, second)
  {
    r := NothingYet(n, pol);
    var m := LostPlanTick(n, [], r, now, first);
    RotatedDrawOk(n.state.slots[0], now, pol, first, second);
    assert [] + [ForkActs(now, first, second)[0]] == ForkActs(now, first, second)[..1];
    r := Run(pol, r.nodes + [m], r.steps + [PlanStep(now, Always(first), false)]);
  }

  /** The next two: applied and reported, and still nothing of it on file. */
  lemma Told(n: Node, now: int, first: Secrets, second: Secrets, r: Run) returns (s: Run)
    requires |r.nodes| == 2 && Went(n, r.pol, ForkActs(now, first, second)[..1], r)
    requires r.steps == ForkSteps(now, first, second)[..1]
    requires Idle(r.nodes[1], r.pol, now, second) && !r.nodes[1].state.applied
    ensures Went(n, r.pol, ForkActs(now, first, second)[..3], s) && s.pol == r.pol && |s.nodes| == 6
    ensures s.steps == ForkSteps(now, first, second)[..5] && s.nodes[..2] == r.nodes
    ensures s.nodes[3] == s.nodes[4] == s.nodes[5] && Idle(s.nodes[5], r.pol, now, second)
    ensures s.nodes[5].disk == r.nodes[1].disk && s.nodes[5].state.slots == r.nodes[1].state.slots
    ensures s.nodes[5].live == Project(r.nodes[1].state.slots)
  {
    var acts := ForkActs(now, first, second);
    var m := AppliedTick(n, acts[..1], r, now, second);
    assert acts[..1] + [acts[1]] == acts[..2];
    s := Run(r.pol, r.nodes + [r.nodes[1], m], r.steps + [PlanStep(now, Always(second), false), ApplySucceeds(false)]);
    ReportedTick(n, acts[..2], s, now, second);
    assert acts[..2] + [acts[2]] == acts[..3];
    s := Run(r.pol, s.nodes + [m, m], s.steps + [PlanStep(now, Always(second), false), SyncFails]);
  }

  /** The crash and the second rotation. */
  lemma Recovered(n: Node, now: int, first: Secrets, second: Secrets, r: Run) returns (s: Run)
    requires |r.nodes| == 6 && Went(n, r.pol, ForkActs(now, first, second)[..3], r)
    requires r.steps == ForkSteps(now, first, second)[..5] && CanFork(n, r.pol, now, first, second)
    requires r.nodes[5].disk == n.disk && Idle(r.nodes[5], r.pol, now, second)
    ensures Went(n, r.pol, ForkActs(now, first, second), s) && s.pol == r.pol && |s.nodes| == 9
    ensures s.steps == ForkSteps(now, first, second) && s.nodes[..6] == r.nodes
    ensures s.nodes[6].state == n.state && s.nodes[6].remote.None?
    ensures RotatedTo(n, r.pol, now, second, s.nodes[7])
  {
    var acts := ForkActs(now, first, second);
    var m6 := Crashed(n, acts[..3], r, now, second);
    assert acts[..3] + [acts[3]] == acts[..4];
    s := Run(r.pol, r.nodes + [m6], r.steps + [Restart(Always(second))]);
    var m7 := RejectedTick(n, acts[..4], s, now, second);
    assert acts[..4] + [acts[4]] == acts;
    s := Run(r.pol, s.nodes + [m7, m7], s.steps + [PlanStep(now, Always(second), true), ApplyFails(false)]);
  }

  /**
   A failed write followed by a crash, from any one-slot pool whose slot has
   ended, as five ticks: one credential is applied and reported as the next
   generation, is forgotten, and another is issued under the same number.
   */
  lemma FailedWriteForksAGeneration(n: Node, pol: Policy, now: int, first: Secrets, second: Secrets) returns (r: Run)
    requires CanFork(n, pol, now, first, second)
    ensures ActsOk(n, pol, ForkActs(now, first, second)) && r == RunOf(n, pol, ForkActs(now, first, second))
    ensures Valid(r) && r.pol == pol && r.nodes[0] == n && r.steps == ForkSteps(now, first, second) && Behind(r, 1)
    ensures Fresh(r.nodes[1], pol, now) && Fresh(r.nodes[3], pol, now)
    ensures r.nodes[6].state == n.state && r.nodes[6].remote.None?
    ensures |r.nodes[4].state.slots| == 1 == |r.nodes[7].state.slots|
    ensures var told, later := r.nodes[4].state.slots[0], r.nodes[7].state.slots[0];
            && told.generation == later.generation == n.state.slots[0].generation + 1
            && r.nodes[4].live == [ToLive(told)] && SyncBody(r.nodes[4].state) == [ToReport(told)]
            && (told.credentialId, told.vlessUuid) == (first.credentialId, first.vlessUuid)
            && (later.credentialId, later.vlessUuid) == (second.credentialId, second.vlessUuid)
  {
    var lost := Lost(n, pol, now, first, second);
    var told := Told(n, now, first, second, lost);
    r := Recovered(n, now, first, second, told);
    assert r.nodes[0] == lost.nodes[0] && r.nodes[1] == lost.nodes[1];
    assert r.nodes[3] == told.nodes[3] && r.nodes[4] == told.nodes[4];
    TicksAreRun(n, pol, ForkActs(now, first, second));
  }

  // ------------------------------------------------------ two pools behind

  function FallBehindActs(now: int, later: int, first: Secrets, second: Secrets): seq<Act>
  {
    [Tick(TickAt(now, first, true, Rejected, false)), Tick(TickAt(later, second, true, Rejected, false))]
  }

  function FallBehindSteps(now: int, later: int, first: Secrets, second: Secrets): seq<Step>
  {
    [PlanStep(now, Always(first), true), ApplyFails(false), PlanStep(later, Always(second), true), ApplyFails(false)]
  }

  /** From any one-slot pool: two expiries and an apply rejected after each. */
  lemma FallsBehind(n: Node, pol: Policy, now: int, later: int, first: Secrets, second: Secrets) returns (r: Run)
    requires CanFork(n, pol, now, first, second) && now + pol.lifetime <= later
    ensures var acts := FallBehindActs(now, later, first, second); ActsOk(n, pol, acts) && r == RunOf(n, pol, acts)
    ensures Valid(r) && r.pol == pol && r.nodes[0] == n && r.steps == FallBehindSteps(now, later, first, second)
    ensures PlanOf(n, pol, now, Always(first)).1 && PlanOf(r.nodes[2], pol, later, Always(second)).1
  {
    r := NothingYet(n, pol);
    var acts := FallBehindActs(now, later, first, second);
    var n1 := RejectedTick(n, [], r, now, first);
    RotatedDrawOk(n.state.slots[0], now, pol, first, second);
    assert [] + [acts[0]] == acts[..1];
    r := Run(pol, r.nodes + [n1, n1], r.steps + [PlanStep(now, Always(first), true), ApplyFails(false)]);
    var n3 := RejectedTick(n, acts[..1], r, later, second);
    assert acts[..1] + [acts[1]] == acts;
    r := Run(pol, r.nodes + [n3, n3], r.steps + [PlanStep(later, Always(second), true), ApplyFails(false)]);
    TicksAreRun(n, pol, acts);
  }
}
