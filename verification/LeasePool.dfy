/**
 The lease pool of one node as a state machine: memory, the state file, the
 live credentials and the control plane's last word, changed by planning,
 applying, syncing and restarting. The class is the code's own tick, proved
 to be a sequence of those steps.
 */
module LeasePools {
  import opened Prelude
  import opened Authorizations
  import opened LeaseSlots

  /** What one slot's user is in the live configuration. */
  datatype LiveSlot = LiveSlot(
    slot: nat, principalId: string, credentialId: string, cls: CredentialClass,
    validFrom: int, vlessUuid: string, hysteria2Password: string, expiresAt: int)

  function ToLive(s: Slot): LiveSlot
  {
    LiveSlot(s.slot, s.principalId, s.credentialId, s.cls, s.validFrom, s.vlessUuid, s.hysteria2Password, s.validUntil)
  }

  function Project(slots: seq<Slot>): seq<LiveSlot>
  {
    seq(|slots|, i requires 0 <= i < |slots| => ToLive(slots[i]))
  }

  /** One slot as told to the control plane; secrets only for a generation it has not stored. */
  datatype ReportItem = ReportItem(
    slot: nat, generation: nat, principalId: string, credentialId: string, cls: CredentialClass,
    validFrom: int, revoked: bool, validUntil: int, secrets: Option<(string, string)>)

  function ToReport(s: Slot): ReportItem
  {
    ReportItem(s.slot, s.generation, s.principalId, s.credentialId, s.cls, s.validFrom, s.revoked, s.validUntil,
               if s.reported then None else Some((s.vlessUuid, s.hysteria2Password)))
  }

  function SyncBody(state: LeaseState): seq<ReportItem>
  {
    seq(|state.slots|, i requires 0 <= i < |state.slots| => ToReport(state.slots[i]))
  }

  /** `clock` is the latest reading of the node's clock. */
  datatype Node = Node(
    state: LeaseState, remote: Option<RemoteView>, appliedHere: bool,
    disk: LeaseState, live: seq<LiveSlot>, clock: int)

  /** `saved` says whether the write of the state file succeeded, when the step makes one. */
  datatype Step =
    | PlanStep(now: int, draw: nat -> Secrets, saved: bool)
    | ApplyFails(reached: bool)
    | ApplySucceeds(saved: bool)
    | SyncStep(later: int, answer: SyncAnswer, saved: bool)
    | SyncFails
    | Restart(load: nat -> Secrets)

  function PlanOf(n: Node, pol: Policy, now: int, draw: nat -> Secrets): (LeaseState, bool)
    requires pol.grid > 0
  {
    var rotate := SlotsToRotate(n.state, n.remote, now, pol.grid);
    var stamped := if rotate != [] then n.state.(lastRotationAt := now) else n.state;
    Planned(stamped, Asked(rotate, now, pol, draw))
  }

  function SyncOf(n: Node, pol: Policy, later: int, view: RemoteView): LeaseState
    requires pol.grid > 0
  {
    Extended(Marked(n.state, view), view, later, pol)
  }

  function Next(n: Node, pol: Policy, step: Step): Node
    requires pol.grid > 0
  {
    match step
    case PlanStep(now, draw, saved) =>
      var (next, changed) := PlanOf(n, pol, now, draw);
      n.(state := next, disk := if changed && saved then next else n.disk, clock := now)
    case ApplyFails(reached) =>
      if reached then n.(live := Project(n.state.slots)) else n
    case ApplySucceeds(saved) =>
      var next := n.state.(applied := true);
      n.(state := next, appliedHere := true, live := Project(next.slots), disk := if saved then next else n.disk)
    case SyncStep(later, answer, saved) =>
      if !AnswerReadable(answer) then n.(clock := later)
      else
        var view := ViewOf(answer);
        var next := SyncOf(n, pol, later, view);
        n.(state := next, remote := Some(view), clock := later,
           disk := if next != n.state && saved then next else n.disk)
    case SyncFails => n
    case Restart(load) =>
      n.(state := Loaded(n.disk, load), remote := None, appliedHere := false)
  }

  predicate NeedsApply(n: Node)
  {
    !n.state.applied || !n.appliedHere
  }

  /** Readings of the clock do not go back; generators give well-formed values not in use. */
  ghost predicate Enabled(n: Node, pol: Policy, step: Step)
  {
    match step
    case PlanStep(now, draw, _) => n.clock <= now && DrawOk(n.state.slots, PoolSize(pol), draw)
    case ApplyFails(_) => NeedsApply(n)
    case ApplySucceeds(_) => NeedsApply(n)
    case SyncStep(later, _, _) => !NeedsApply(n) && n.clock <= later
    case SyncFails => !NeedsApply(n)
    case Restart(_) => true
  }

  ghost predicate WellFormed(d: Secrets)
  {
    && "native_" <= d.principalId && OpaqueShape(d.principalId)
    && ValidCredentialId(d.credentialId)
    && ValidUuid(d.vlessUuid)
    && ValidPassword(d.hysteria2Password)
  }

  ghost predicate Apart(principal: string, credential: string, uuid: string, d: Secrets)
  {
    d.principalId != principal && d.credentialId != credential && Lower(d.vlessUuid) != Lower(uuid)
  }

  /** The draws for slots 0..size are well formed, and clash neither with each other nor with `slots`. */
  ghost predicate DrawOk(slots: seq<Slot>, size: nat, draw: nat -> Secrets)
  {
    && (forall i: nat :: i < size ==> WellFormed(draw(i)))
    && (forall i: nat, j: nat :: i < size && j < size && i != j ==>
         Apart(draw(i).principalId, draw(i).credentialId, draw(i).vlessUuid, draw(j)))
    && (forall k, j: nat :: 0 <= k < |slots| && j < size ==>
         Apart(slots[k].principalId, slots[k].credentialId, slots[k].vlessUuid, draw(j)))
  }

  ghost function Execute(n: Node, pol: Policy, steps: seq<Step>): Node
    requires pol.grid > 0
    decreases |steps|
  {
    if steps == [] then n else Execute(Next(n, pol, steps[0]), pol, steps[1..])
  }

  // ------------------------------------------------------------ one tick

  datatype ApplyOutcome = Rejected | ReachedButFailed | ProvenLive

  /** What the world answers during one tick. */
  datatype Env = Env(
    now: int, draw: nat -> Secrets, planSaved: bool,
    apply: ApplyOutcome, applySaved: bool,
    syncDue: bool, answer: Option<SyncAnswer>, later: int, syncSaved: bool)

  function SyncPart(n: Node, pol: Policy, e: Env, dirty: bool): seq<Step>
  {
    if (pol.size == 0 && n.state.slots == []) || !(e.syncDue || dirty) then []
    else if e.answer.None? then [SyncFails]
    else [SyncStep(e.later, e.answer.value, e.syncSaved)]
  }

  function ApplyStep(outcome: ApplyOutcome, saved: bool): Step
  {
    if outcome == ProvenLive then ApplySucceeds(saved) else ApplyFails(outcome == ReachedButFailed)
  }

  /** What follows planning; `changed` says that planning wrote a new pool. */
  function ApplyPart(n: Node, pol: Policy, e: Env, changed: bool): seq<Step>
    requires pol.grid > 0
  {
    if changed && !e.planSaved then []
    else if !NeedsApply(n) then SyncPart(n, pol, e, changed)
    else
      var a := ApplyStep(e.apply, e.applySaved);
      [a] + if a.ApplySucceeds? && a.saved then SyncPart(Next(n, pol, a), pol, e, true) else []
  }

  /** The steps one tick takes, cut short by the first failure. */
  function TickSteps(n: Node, pol: Policy, e: Env): seq<Step>
    requires pol.grid > 0
  {
    var p := PlanStep(e.now, e.draw, e.planSaved);
    [p] + ApplyPart(Next(n, pol, p), pol, e, PlanOf(n, pol, e.now, e.draw).1)
  }

  /** The first body a sequence of steps sends: the pool as it is at that step. */
  ghost function FirstSent(n: Node, pol: Policy, steps: seq<Step>): Option<seq<ReportItem>>
    requires pol.grid > 0
    decreases |steps|
  {
    if steps == [] then None
    else if steps[0].SyncStep? || steps[0].SyncFails? then Some(SyncBody(n.state))
    else FirstSent(Next(n, pol, steps[0]), pol, steps[1..])
  }

  class LeasePool {
    var state: LeaseState
    var remote: Option<RemoteView>
    var appliedHere: bool
    /** The state file, and the lease users of the live configuration. */
    var disk: LeaseState
    var live: seq<LiveSlot>
    ghost var clock: int

    ghost function View(): Node
      reads this
    {
      Node(state, remote, appliedHere, disk, live, clock)
    }

    /** Opening the pool: the file is the state, everything else starts over. */
    constructor (file: LeaseState, running: seq<LiveSlot>, load: nat -> Secrets, ghost at: int)
      ensures View() == Node(Loaded(file, load), None, false, file, running, at)
    {
      state := Loaded(file, load);
      remote, appliedHere, disk, live, clock := None, false, file, running, at;
    }

    /** Resize to the pool size and rotate `rotate`. */
    method Plan(rotate: seq<nat>, now: int, pol: Policy, draw: nat -> Secrets) returns (changed: bool)
      requires pol.grid > 0
      modifies this`state
      ensures (state, changed) == Planned(old(state), Asked(rotate, now, pol, draw))
    {
      var n := PoolSize(pol);
      var slots := KeepBelow(state.slots, n);
      changed := |slots| != |state.slots|;
      ghost var a, kept, dropped := Asked(rotate, now, pol, draw), slots, changed;
      for k := 0 to n
        invariant Refresh(kept, 0, n, a) == Refresh(slots, k, n, a)
        invariant (dropped || Touches(kept, 0, n, a)) == (changed || Touches(slots, k, n, a))
      {
        ghost var next := Visit(slots, k, a);
        var i := IndexOf(slots, k);
        if i == |slots| {
          slots := slots + [Mint(k, 1, now, pol, draw(k))];
          changed := true;
        } else if k in rotate {
          slots := slots[i := Rotated(slots[i], now, pol, draw(k))];
          changed := true;
        }
        assert slots == next;
      }
      state := state.(slots := SortBy(SlotLeq, slots));
      if changed {
        state := state.(applied := false);
      }
    }

    /** Adopt renewals: only the bounds of validity of live leased slots move. */
    method AdoptExtensions(view: RemoteView, now: int, pol: Policy) returns (count: nat)
      requires pol.grid > 0
      modifies this`state
      ensures state == Extended(old(state), view, now, pol)
      ensures count == CountExtended(old(state).slots, view, now, pol)
    {
      ghost var was := state;
      var slots;
      slots, count := ExtendAll(state.slots, view, now, pol);
      assert slots == Extended(was, view, now, pol).slots;
      state := state.(slots := slots);
      if count > 0 {
        state := state.(applied := false);
      }
    }

    /** Read an answer; an unreadable one changes nothing. */
    method Absorb(answer: SyncAnswer) returns (view: Option<RemoteView>)
      modifies this`state
      ensures view == if AnswerReadable(answer) then Some(ViewOf(answer)) else None
      ensures state == if AnswerReadable(answer) then Marked(old(state), ViewOf(answer)) else old(state)
    {
      if answer.asOf.None? {
        return None;
      }
      var known: map<nat, RemoteSlot> := map[];
      for i := 0 to |answer.items|
        invariant known == RemoteSlots(answer.items[..i])
        invariant forall j :: 0 <= j < i && ItemComplete(answer.items[j]) ==> !answer.items[j].extend.BadDate?
      {
        var item := answer.items[i];
        assert answer.items[..i + 1][..i] == answer.items[..i];
        if ItemComplete(item) {
          if item.extend.BadDate? {
            return None;
          }
          var to := if item.extend.ExtendAt? then Some(item.extend.at) else None;
          known := known[item.slot.value % U32_RANGE
                         := RemoteSlot(item.generation.value, item.state.value, item.urgent, to)];
        }
      }
      assert answer.items[..|answer.items|] == answer.items;
      var v := RemoteView(answer.asOf.value,
                          if answer.minRemaining.Some? then answer.minRemaining.value else DEFAULT_MIN_REMAINING_SECS,
                          known);
      ghost var was := state;
      var slots := state.slots;
      for i := 0 to |slots|
        invariant |slots| == |was.slots|
        invariant forall j :: 0 <= j < i ==> slots[j] == MarkSlot(was.slots[j], v)
        invariant forall j :: i <= j < |slots| ==> slots[j] == was.slots[j]
      {
        slots := slots[i := MarkSlot(slots[i], v)];
      }
      state := state.(slots := slots);
      assert state.slots == Marked(was, v).slots;
      view := Some(v);
    }

    /** Decide, plan, and persist before anything is applied. */
    method PlanAndPersist(pol: Policy, now: int, draw: nat -> Secrets, saved: bool) returns (changed: bool)
      requires pol.grid > 0
      modifies this
      ensures View() == Next(old(View()), pol, PlanStep(now, draw, saved))
      ensures changed == PlanOf(old(View()), pol, now, draw).1
    {
      clock := now;
      var rotate := SlotsToRotate(state, remote, now, pol.grid);
      if rotate != [] {
        state := state.(lastRotationAt := now);
      }
      changed := Plan(rotate, now, pol, draw);
      if changed && saved {
        disk := state;
      }
    }

    /** Hand the pool to vpn-admin; only a proven live answer counts. */
    method Apply(outcome: ApplyOutcome, saved: bool, ghost pol: Policy) returns (ok: bool)
      requires pol.grid > 0
      modifies this
      ensures View() == Next(old(View()), pol, ApplyStep(outcome, saved))
      ensures ok <==> outcome == ProvenLive && saved
    {
      if outcome != Rejected {
        live := Project(state.slots);
      }
      if outcome != ProvenLive {
        return false;
      }
      state := state.(applied := true);
      appliedHere := true;
      if saved {
        disk := state;
      }
      ok := saved;
    }

    /** Take in the answer to a sync and keep what it changed. */
    method TakeAnswer(pol: Policy, later: int, answer: SyncAnswer, saved: bool) returns (ok: bool)
      requires pol.grid > 0
      modifies this
      ensures View() == Next(old(View()), pol, SyncStep(later, answer, saved))
    {
      clock := later;
      var held := state;
      var view := Absorb(answer);
      if view.None? {
        return false;
      }
      var count := AdoptExtensions(view.value, later, pol);
      remote := view;
      ok := true;
      if state != held {
        if saved { disk := state; } else { ok := false; }
      }
    }

    method Report(pol: Policy, e: Env, dirty: bool) returns (ok: bool, sent: Option<seq<ReportItem>>)
      requires pol.grid > 0
      modifies this
      ensures View() == Execute(old(View()), pol, SyncPart(old(View()), pol, e, dirty))
      ensures sent == FirstSent(old(View()), pol, SyncPart(old(View()), pol, e, dirty))
    {
      if pol.size == 0 && state.slots == [] {
        return true, None;
      }
      if !(e.syncDue || dirty) {
        return true, None;
      }
      sent := Some(SyncBody(state));
      if e.answer.None? {
        ok := false;
      } else {
        ok := TakeAnswer(pol, e.later, e.answer.value, e.syncSaved);
      }
    }

    method ApplyAndReport(pol: Policy, e: Env, changed: bool) returns (ok: bool, sent: Option<seq<ReportItem>>)
      requires pol.grid > 0
      modifies this
      ensures View() == Execute(old(View()), pol, ApplyPart(old(View()), pol, e, changed))
      ensures sent == FirstSent(old(View()), pol, ApplyPart(old(View()), pol, e, changed))
    {
      ghost var n := View();
      if changed && !e.planSaved {
        return false, None;
      }
      if !state.applied || !appliedHere {
        ok := Apply(e.apply, e.applySaved, pol);
        ghost var a := ApplyStep(e.apply, e.applySaved);
        ghost var n1 := View();
        sent := None;
        if ok {
          ok, sent := Report(pol, e, true);
        }
        ghost var rest := if a.ApplySucceeds? && a.saved then SyncPart(n1, pol, e, true) else [];
        assert ApplyPart(n, pol, e, changed)[1..] == rest;
      } else {
        ok, sent := Report(pol, e, changed);
      }
    }

    /** One pass of the agent's loop: plan, persist, apply, then tell the control plane. */
    method Tick(pol: Policy, e: Env) returns (ok: bool, sent: Option<seq<ReportItem>>)
      requires pol.grid > 0
      modifies this
      ensures View() == Execute(old(View()), pol, TickSteps(old(View()), pol, e))
      ensures sent == FirstSent(old(View()), pol, TickSteps(old(View()), pol, e))
    {
      ghost var n := View();
      var changed := PlanAndPersist(pol, e.now, e.draw, e.planSaved);
      ghost var n1 := View();
      ok, sent := ApplyAndReport(pol, e, changed);
      assert TickSteps(n, pol, e)[1..] == ApplyPart(n1, pol, e, changed);
    }
  }

  /** Every step of a tick is one the step model allows. */
  ghost predicate StepsEnabled(n: Node, pol: Policy, steps: seq<Step>)
    requires pol.grid > 0
    decreases |steps|
  {
    steps == [] || (Enabled(n, pol, steps[0]) && StepsEnabled(Next(n, pol, steps[0]), pol, steps[1..]))
  }

  /** Renews in place, slot after slot, and counts. */
  method ExtendAll(was: seq<Slot>, view: RemoteView, now: int, pol: Policy) returns (slots: seq<Slot>, count: nat)
    requires pol.grid > 0
    ensures |slots| == |was| && forall j :: 0 <= j < |was| ==> slots[j] == ExtendSlot(was[j], view, now, pol)
    ensures count == CountExtended(was, view, now, pol)
  {
    slots, count := was, 0;
    for i := 0 to |was|
      invariant |slots| == |was|
      invariant forall j :: 0 <= j < i ==> slots[j] == ExtendSlot(was[j], view, now, pol)
      invariant forall j :: i <= j < |slots| ==> slots[j] == was[j]
      invariant count == CountExtended(was[..i], view, now, pol)
    {
      CountExtendedStep(was, i, view, now, pol);
      var e := Extension(slots[i], view, now, pol);
      if e.Some? {
        slots := slots[i := slots[i].(validFrom := now, validUntil := e.value, revoked := false)];
        count := count + 1;
      }
    }
    assert was[..|was|] == was;
  }

  lemma SyncPartEnabled(n: Node, pol: Policy, e: Env, dirty: bool)
    requires pol.grid > 0 && n.clock <= e.later && !NeedsApply(n)
    ensures StepsEnabled(n, pol, SyncPart(n, pol, e, dirty))
  {}

  lemma ApplyPartEnabled(n: Node, pol: Policy, e: Env, changed: bool)
    requires pol.grid > 0 && n.clock <= e.later
    ensures StepsEnabled(n, pol, ApplyPart(n, pol, e, changed))
  {
    var a := ApplyStep(e.apply, e.applySaved);
    var n1 := Next(n, pol, a);
    if !NeedsApply(n) {
      SyncPartEnabled(n, pol, e, changed);
    } else {
      var rest := if a.ApplySucceeds? && a.saved then SyncPart(n1, pol, e, true) else [];
      if a.ApplySucceeds? { SyncPartEnabled(n1, pol, e, true); }
      assert ([a] + rest)[1..] == rest;
    }
  }

  lemma TickIsRun(n: Node, pol: Policy, e: Env)
    requires pol.grid > 0 && n.clock <= e.now <= e.later && DrawOk(n.state.slots, PoolSize(pol), e.draw)
    ensures StepsEnabled(n, pol, TickSteps(n, pol, e))
  {
    var p := PlanStep(e.now, e.draw, e.planSaved);
    var n1 := Next(n, pol, p);
    var changed := PlanOf(n, pol, e.now, e.draw).1;
    assert n1.clock == e.now;
    ApplyPartEnabled(n1, pol, e, changed);
    assert TickSteps(n, pol, e)[1..] == ApplyPart(n1, pol, e, changed);
  }
}
