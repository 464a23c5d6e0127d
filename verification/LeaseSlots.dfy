/**
 The node's pool of credential slots: who must rotate and when, resizing and
 rotation, renewal in place, and what a sync answer changes
 (apps/provisioning-agent/src/lease_pool.rs).
 */
module LeaseSlots {
  import opened Prelude
  import opened Authorizations

  const MAX_POOL_SIZE := 1024
  const DEFAULT_BATCH_SECS := 600
  const DEFAULT_MIN_REMAINING_SECS := 600
  const U32_RANGE := 0x1_0000_0000
  const U64_RANGE := 0x1_0000_0000_0000_0000

  datatype Slot = Slot(
    slot: nat,
    generation: nat,
    validUntil: int,
    principalId: string,
    credentialId: string,
    cls: CredentialClass,
    validFrom: int,
    revoked: bool,
    vlessUuid: string,
    hysteria2Password: string,
    reported: bool)

  datatype LeaseState = LeaseState(slots: seq<Slot>, applied: bool, lastRotationAt: int)

  /** What an answer said of a slot when it last named it. */
  datatype RemoteSlot = RemoteSlot(generation: nat, state: string, urgent: bool, extendTo: Option<int>)

  datatype RemoteView = RemoteView(asOf: int, minRemaining: int, slots: map<nat, RemoteSlot>)

  /** One draw from the credential generators. */
  datatype Secrets = Secrets(
    principalId: string, credentialId: string, vlessUuid: string, hysteria2Password: string)

  /** Pool size, slot lifetime and batch grid, after clamping. */
  datatype Policy = Policy(size: nat, lifetime: int, grid: int)

  datatype Why = Expired | Urgent | Deferrable

  // ------------------------------------------------------------ the grid

  function RoundDown(t: int, grid: int): int
    requires grid > 0
  {
    (t / grid) * grid
  }

  predicate OnGrid(t: int, grid: int)
    requires grid > 0
  {
    RoundDown(t, grid) == t
  }

  lemma NextMultiple(a: int, b: int, grid: int)
    requires grid > 0 && a < b
    ensures (a + 1) * grid <= b * grid
  {}

  lemma DivUnique(t: int, grid: int, q: int)
    requires grid > 0 && q * grid <= t < q * grid + grid
    ensures t / grid == q
  {
    var d := t / grid;
    assert d * grid <= t < d * grid + grid;
    if d < q { NextMultiple(d, q, grid); }
    if q < d { NextMultiple(q, d, grid); }
  }

  lemma RoundDownFacts(t: int, grid: int)
    requires grid > 0
    ensures RoundDown(t, grid) <= t < RoundDown(t, grid) + grid
    ensures OnGrid(RoundDown(t, grid), grid)
  {
    DivUnique(RoundDown(t, grid), grid, t / grid);
  }

  lemma DivMonotone(a: int, b: int, grid: int)
    requires grid > 0 && a <= b
    ensures a / grid <= b / grid
  {
    var p, q := a / grid, b / grid;
    assert p * grid <= a && b < q * grid + grid;
    if q < p { NextMultiple(q, p, grid); }
  }

  /** A grid point after `t` is not in the window of `t`. */
  lemma GridPointAfter(x: int, t: int, grid: int)
    requires grid > 0 && OnGrid(x, grid) && t < x
    ensures t / grid < x / grid
  {
    DivMonotone(t, x, grid);
  }

  function ClampBatchInterval(secs: nat): (r: int)
    ensures 60 <= secs <= 600 ==> r == secs
    ensures secs <= 60 ==> r == 60
    ensures secs >= 600 ==> r == 600
  {
    if secs < 60 then 60 else if secs > DEFAULT_BATCH_SECS then DEFAULT_BATCH_SECS else secs
  }

  /** The configured value is cast to a signed word before clamping, so a huge one wraps. */
  function ClampLifetime(secs: nat, grid: int): (r: int)
    requires secs < U64_RANGE && 0 < grid <= 1140
    ensures 660 + grid <= secs <= 1800 && 900 <= secs ==> r == secs
    ensures 1800 <= secs < 0x8000_0000_0000_0000 ==> r == 1800
    ensures secs <= 660 + grid || secs <= 900 || 0x8000_0000_0000_0000 <= secs ==> r == Max(660 + grid, 900)
  {
    var signed := if secs > I64_MAX then secs - U64_RANGE else secs;
    var low := Max(DEFAULT_MIN_REMAINING_SECS + grid + 60, 900);
    if signed < low then low else if signed > NATIVE_LEASE_SECS then NATIVE_LEASE_SECS else signed
  }

  /** What clamping guarantees of every configuration. */
  predicate PolicyOk(pol: Policy)
  {
    && 60 <= pol.grid <= DEFAULT_BATCH_SECS
    && DEFAULT_MIN_REMAINING_SECS + pol.grid + 60 <= pol.lifetime <= NATIVE_LEASE_SECS
  }

  /** Every configuration clamps to such a policy. */
  lemma ClampedPolicyOk(size: nat, lifetime: nat, batch: nat)
    requires lifetime < U64_RANGE
    ensures var grid := ClampBatchInterval(batch); PolicyOk(Policy(size, ClampLifetime(lifetime, grid), grid))
  {}

  function Mint(slot: nat, generation: nat, now: int, pol: Policy, draw: Secrets): Slot
    requires pol.grid > 0
  {
    Slot(slot, generation, RoundDown(now + pol.lifetime, pol.grid), draw.principalId,
         draw.credentialId, Native, now, false, draw.vlessUuid, draw.hysteria2Password, false)
  }

  /** A fresh slot ends on the grid, within 30 minutes, and can be leased for at least 60 s. */
  lemma MintWindow(slot: nat, generation: nat, now: int, pol: Policy, draw: Secrets)
    requires PolicyOk(pol)
    ensures var s := Mint(slot, generation, now, pol, draw);
            && OnGrid(s.validUntil, pol.grid)
            && s.validUntil - s.validFrom <= NATIVE_LEASE_SECS
            && s.validUntil - DEFAULT_MIN_REMAINING_SECS - now > 60
  {
    RoundDownFacts(now + pol.lifetime, pol.grid);
  }

  // ----------------------------------------------------------- decisions

  /** Why this slot needs a new generation, if it does. */
  function WhyRotate(s: Slot, remote: Option<RemoteView>, now: int): Option<Why>
  {
    var minRemaining := if remote.Some? then remote.value.minRemaining else DEFAULT_MIN_REMAINING_SECS;
    var leasableUntil := s.validUntil - minRemaining;
    if s.validUntil <= now then Some(Expired)
    else if !s.reported && now >= leasableUntil then Some(Deferrable)
    else if remote.None? || s.slot !in remote.value.slots then None
    else
      var rs := remote.value.slots[s.slot];
      if rs.generation != s.generation then None
      else if rs.state == "revoked" then Some(if rs.urgent then Urgent else Deferrable)
      else if rs.state == "active" && remote.value.asOf >= leasableUntil then Some(Deferrable)
      else None
  }

  function RotationCandidates(slots: seq<Slot>, remote: Option<RemoteView>, now: int): seq<(nat, Why)>
  {
    if slots == [] then []
    else
      var why := WhyRotate(slots[0], remote, now);
      (if why.Some? then [(slots[0].slot, why.value)] else [])
        + RotationCandidates(slots[1..], remote, now)
  }

  function SlotNumbers(c: seq<(nat, Why)>): seq<nat>
  {
    seq(|c|, i requires 0 <= i < |c| => c[i].0)
  }

  predicate Forced(c: seq<(nat, Why)>)
  {
    exists i :: 0 <= i < |c| && c[i].1 != Deferrable
  }

  /** The batching decision: forced now, or deferred to the first poll past a boundary. */
  function SlotsToRotate(state: LeaseState, remote: Option<RemoteView>, now: int, grid: int): seq<nat>
    requires grid > 0
  {
    var c := RotationCandidates(state.slots, remote, now);
    var boundaryPassed := now / grid > state.lastRotationAt / grid;
    if Forced(c) || (c != [] && boundaryPassed) then SlotNumbers(c) else []
  }

  lemma {:induction false} CandidatesMembers(slots: seq<Slot>, remote: Option<RemoteView>, now: int, c: (nat, Why))
    ensures c in RotationCandidates(slots, remote, now) <==>
            exists i :: 0 <= i < |slots| && slots[i].slot == c.0 && WhyRotate(slots[i], remote, now) == Some(c.1)
  {
    if slots != [] {
      CandidatesMembers(slots[1..], remote, now, c);
      var rest := slots[1..];
      if exists i :: 0 <= i < |slots| && slots[i].slot == c.0 && WhyRotate(slots[i], remote, now) == Some(c.1) {
        var i :| 0 <= i < |slots| && slots[i].slot == c.0 && WhyRotate(slots[i], remote, now) == Some(c.1);
        if i > 0 { assert rest[i - 1] == slots[i]; }
      }
      if exists i :: 0 <= i < |rest| && rest[i].slot == c.0 && WhyRotate(rest[i], remote, now) == Some(c.1) {
        var i :| 0 <= i < |rest| && rest[i].slot == c.0 && WhyRotate(rest[i], remote, now) == Some(c.1);
        assert slots[i + 1] == rest[i];
      }
    }
  }

  /** Slot `i` stands at index `i`: the shape every persisted pool has. */
  predicate InOrder(slots: seq<Slot>)
  {
    forall i :: 0 <= i < |slots| ==> slots[i].slot == i
  }

  /** Some slot has this reason. */
  predicate SomeWhy(slots: seq<Slot>, remote: Option<RemoteView>, now: int, why: Why)
  {
    exists i :: 0 <= i < |slots| && WhyRotate(slots[i], remote, now) == Some(why)
  }

  /** Some slot of this number has a reason. */
  predicate NumberRotates(slots: seq<Slot>, remote: Option<RemoteView>, now: int, number: nat)
  {
    exists i :: 0 <= i < |slots| && slots[i].slot == number && WhyRotate(slots[i], remote, now).Some?
  }

  lemma CandidateAt(slots: seq<Slot>, remote: Option<RemoteView>, now: int, i: nat)
    requires i < |slots| && WhyRotate(slots[i], remote, now).Some?
    ensures (slots[i].slot, WhyRotate(slots[i], remote, now).value) in RotationCandidates(slots, remote, now)
  {
    CandidatesMembers(slots, remote, now, (slots[i].slot, WhyRotate(slots[i], remote, now).value));
  }

  lemma CandidateSource(slots: seq<Slot>, remote: Option<RemoteView>, now: int, k: nat) returns (i: nat)
    requires k < |RotationCandidates(slots, remote, now)|
    ensures var c := RotationCandidates(slots, remote, now)[k];
            i < |slots| && slots[i].slot == c.0 && WhyRotate(slots[i], remote, now) == Some(c.1)
  {
    var c := RotationCandidates(slots, remote, now)[k];
    assert c in RotationCandidates(slots, remote, now);
    CandidatesMembers(slots, remote, now, c);
    i :| 0 <= i < |slots| && slots[i].slot == c.0 && WhyRotate(slots[i], remote, now) == Some(c.1);
  }

  lemma ForcedMeaning(slots: seq<Slot>, remote: Option<RemoteView>, now: int)
    ensures Forced(RotationCandidates(slots, remote, now)) <==>
            SomeWhy(slots, remote, now, Expired) || SomeWhy(slots, remote, now, Urgent)
  {
    var c := RotationCandidates(slots, remote, now);
    if Forced(c) {
      var k :| 0 <= k < |c| && c[k].1 != Deferrable;
      var i := CandidateSource(slots, remote, now, k);
    }
    forall i | 0 <= i < |slots| && WhyRotate(slots[i], remote, now) in {Some(Expired), Some(Urgent)} ensures Forced(c) {
      CandidateAt(slots, remote, now, i);
    }
  }

  lemma NumbersMeaning(slots: seq<Slot>, remote: Option<RemoteView>, now: int, number: nat)
    ensures number in SlotNumbers(RotationCandidates(slots, remote, now)) <==> NumberRotates(slots, remote, now, number)
  {
    var c := RotationCandidates(slots, remote, now);
    var nums := SlotNumbers(c);
    if number in nums {
      var k :| 0 <= k < |nums| && nums[k] == number;
      var i := CandidateSource(slots, remote, now, k);
    }
    if NumberRotates(slots, remote, now, number) {
      var i :| 0 <= i < |slots| && slots[i].slot == number && WhyRotate(slots[i], remote, now).Some?;
      CandidateAt(slots, remote, now, i);
      var k :| 0 <= k < |c| && c[k] == (number, WhyRotate(slots[i], remote, now).value);
      assert nums[k] == number;
    }
  }

  lemma SomeCandidate(slots: seq<Slot>, remote: Option<RemoteView>, now: int)
    ensures RotationCandidates(slots, remote, now) != [] <==>
            exists i :: 0 <= i < |slots| && WhyRotate(slots[i], remote, now).Some?
  {
    if RotationCandidates(slots, remote, now) != [] {
      var i := CandidateSource(slots, remote, now, 0);
    }
    forall i | 0 <= i < |slots| && WhyRotate(slots[i], remote, now).Some?
      ensures RotationCandidates(slots, remote, now) != []
    {
      CandidateAt(slots, remote, now, i);
    }
  }

  /** Something is due now: a forced reason, or a deferrable one with a boundary passed. */
  predicate RotationDue(state: LeaseState, remote: Option<RemoteView>, now: int, grid: int)
    requires grid > 0
  {
    || SomeWhy(state.slots, remote, now, Expired)
    || SomeWhy(state.slots, remote, now, Urgent)
    || (SomeWhy(state.slots, remote, now, Deferrable) && now / grid > state.lastRotationAt / grid)
  }

  /**
   The whole decision, for any list of slots: nothing rotates unless some slot
   is expired or urgent, or some slot is deferrable and a boundary has passed;
   and then exactly the numbers of slots with a reason rotate.
   */
  lemma RotationRule(state: LeaseState, remote: Option<RemoteView>, now: int, grid: int)
    requires grid > 0
    ensures var rotate := SlotsToRotate(state, remote, now, grid);
            && (rotate != [] <==> RotationDue(state, remote, now, grid))
            && (rotate != [] ==> forall i: nat :: i in rotate <==> NumberRotates(state.slots, remote, now, i))
  {
    ForcedMeaning(state.slots, remote, now);
    SomeCandidate(state.slots, remote, now);
    forall i: nat
      ensures i in SlotNumbers(RotationCandidates(state.slots, remote, now))
         <==> NumberRotates(state.slots, remote, now, i)
    {
      NumbersMeaning(state.slots, remote, now, i);
    }
    DueByReason(state, remote, now, grid);
  }

  lemma DueByReason(state: LeaseState, remote: Option<RemoteView>, now: int, grid: int)
    requires grid > 0
    ensures RotationDue(state, remote, now, grid) <==>
            || SomeWhy(state.slots, remote, now, Expired)
            || SomeWhy(state.slots, remote, now, Urgent)
            || ((exists i :: 0 <= i < |state.slots| && WhyRotate(state.slots[i], remote, now).Some?)
                && now / grid > state.lastRotationAt / grid)
  {
    forall i | 0 <= i < |state.slots| && WhyRotate(state.slots[i], remote, now).Some?
      ensures exists why :: SomeWhy(state.slots, remote, now, why)
    {
      assert SomeWhy(state.slots, remote, now, WhyRotate(state.slots[i], remote, now).value);
    }
  }

  /** The same where slot `i` stands at index `i`. */
  lemma RotationRuleInOrder(state: LeaseState, remote: Option<RemoteView>, now: int, grid: int)
    requires grid > 0 && InOrder(state.slots)
    ensures var rotate := SlotsToRotate(state, remote, now, grid);
            && (rotate != [] <==> RotationDue(state, remote, now, grid))
            && (forall i :: i in rotate ==> 0 <= i < |state.slots|)
            && (rotate != [] ==> forall i :: 0 <= i < |state.slots| ==>
                 (i in rotate <==> WhyRotate(state.slots[i], remote, now).Some?))
  {
    RotationRule(state, remote, now, grid);
  }

  // ---------------------------------------------- resizing and rotating

  function KeepBelow(slots: seq<Slot>, n: nat): seq<Slot>
  {
    if slots == [] then []
    else (if slots[0].slot < n then [slots[0]] else []) + KeepBelow(slots[1..], n)
  }

  function IndexOf(slots: seq<Slot>, slot: nat): (k: nat)
    ensures k <= |slots| && (k < |slots| ==> slots[k].slot == slot)
    ensures forall j :: 0 <= j < k ==> slots[j].slot != slot
  {
    if slots == [] || slots[0].slot == slot then 0 else 1 + IndexOf(slots[1..], slot)
  }

  predicate SlotLeq(a: Slot, b: Slot)
  {
    a.slot <= b.slot
  }

  /** A new generation of the same logical slot: the principal stays. */
  function Rotated(s: Slot, now: int, pol: Policy, draw: Secrets): Slot
    requires pol.grid > 0
  {
    Mint(s.slot, s.generation + 1, now, pol, draw).(principalId := s.principalId)
  }

  predicate Absent(slots: seq<Slot>, number: nat)
  {
    IndexOf(slots, number) == |slots|
  }

  /** What a plan is asked to do: the numbers to rotate, and what minting needs. */
  datatype Asked = Asked(rotate: seq<nat>, now: int, pol: Policy, draw: nat -> Secrets)

  /** What a plan makes of slot number `i`: the first slot of that number rotated or kept, or a new one. */
  function PlannedFor(slots: seq<Slot>, i: nat, a: Asked): Slot
    requires a.pol.grid > 0
  {
    var k := IndexOf(slots, i);
    if k == |slots| then Mint(i, 1, a.now, a.pol, a.draw(i))
    else if i in a.rotate then Rotated(slots[k], a.now, a.pol, a.draw(i))
    else slots[k]
  }

  function Visit(slots: seq<Slot>, k: nat, a: Asked): seq<Slot>
    requires a.pol.grid > 0
  {
    var planned := PlannedFor(slots, k, a);
    if Absent(slots, k) then slots + [planned] else slots[IndexOf(slots, k) := planned]
  }

  /** Visit slot numbers `k..n`. */
  function Refresh(slots: seq<Slot>, k: nat, n: nat, a: Asked): seq<Slot>
    requires k <= n && a.pol.grid > 0
    decreases n - k
  {
    if k == n then slots else Refresh(Visit(slots, k, a), k + 1, n, a)
  }

  /** Whether any visit of `k..n` finds a slot missing or to be rotated. */
  predicate Touches(slots: seq<Slot>, k: nat, n: nat, a: Asked)
    requires k <= n && a.pol.grid > 0
    decreases n - k
  {
    k < n && (Absent(slots, k) || k in a.rotate || Touches(Visit(slots, k, a), k + 1, n, a))
  }

  function PoolSize(pol: Policy): nat
  {
    Min(pol.size, MAX_POOL_SIZE)
  }

  function Planned(state: LeaseState, a: Asked): (LeaseState, bool)
    requires a.pol.grid > 0
  {
    var n := PoolSize(a.pol);
    var kept := KeepBelow(state.slots, n);
    var changed := |kept| != |state.slots| || Touches(kept, 0, n, a);
    (state.(slots := SortBy(SlotLeq, Refresh(kept, 0, n, a)), applied := state.applied && !changed), changed)
  }

  // What one visit, and then all of them, do to a list of slots.

  lemma PlannedNumber(slots: seq<Slot>, i: nat, a: Asked)
    requires a.pol.grid > 0
    ensures PlannedFor(slots, i, a).slot == i
  {}

  lemma VisitAt(slots: seq<Slot>, k: nat, a: Asked)
    requires a.pol.grid > 0
    ensures var next, i := Visit(slots, k, a), IndexOf(slots, k);
            && i < |next| && |slots| <= |next| <= |slots| + 1 && next[i] == PlannedFor(slots, k, a)
            && (forall j :: 0 <= j < |next| && j != i ==> j < |slots| && next[j] == slots[j])
            && (forall j :: 0 <= j < |slots| ==> next[j].slot == slots[j].slot)
  {
    PlannedNumber(slots, k, a);
  }

  lemma VisitPlans(slots: seq<Slot>, k: nat, x: Slot, a: Asked)
    requires a.pol.grid > 0 && x == PlannedFor(slots, k, a)
    ensures x in Visit(slots, k, a) && x.slot == k
  {
    VisitAt(slots, k, a);
    PlannedNumber(slots, k, a);
  }

  lemma VisitKeepsMember(slots: seq<Slot>, k: nat, x: Slot, a: Asked)
    requires a.pol.grid > 0 && x in slots && x.slot != k
    ensures x in Visit(slots, k, a)
  {
    VisitAt(slots, k, a);
    var j :| 0 <= j < |slots| && slots[j] == x;
    assert Visit(slots, k, a)[j] == x;
  }

  lemma VisitKeepsOthers(slots: seq<Slot>, k: nat, i: nat, a: Asked)
    requires a.pol.grid > 0 && i != k
    ensures var next := Visit(slots, k, a);
            (Absent(next, i) <==> Absent(slots, i)) && PlannedFor(next, i, a) == PlannedFor(slots, i, a)
  {
    var next := Visit(slots, k, a);
    VisitAt(slots, k, a);
    PlannedNumber(slots, k, a);
    var p, q := IndexOf(slots, i), IndexOf(next, i);
    if p < |slots| {
      assert next[p] == slots[p] && q == p;
    } else {
      assert q == |next|;
    }
  }

  predicate NumbersDistinct(slots: seq<Slot>)
  {
    forall i, j :: 0 <= i < j < |slots| ==> slots[i].slot != slots[j].slot
  }

  predicate Below(slots: seq<Slot>, n: nat)
  {
    forall i :: 0 <= i < |slots| ==> slots[i].slot < n
  }

  lemma VisitShape(slots: seq<Slot>, k: nat, n: nat, a: Asked)
    requires a.pol.grid > 0 && k < n && Below(slots, n)
    ensures Below(Visit(slots, k, a), n)
    ensures NumbersDistinct(slots) ==> NumbersDistinct(Visit(slots, k, a))
  {
    VisitAt(slots, k, a);
    PlannedNumber(slots, k, a);
  }

  lemma {:induction false} RefreshKeeps(slots: seq<Slot>, k: nat, n: nat, x: Slot, a: Asked)
    requires a.pol.grid > 0 && k <= n && x in slots && x.slot < k
    ensures x in Refresh(slots, k, n, a)
    decreases n - k
  {
    if k < n {
      VisitKeepsMember(slots, k, x, a);
      RefreshKeeps(Visit(slots, k, a), k + 1, n, x, a);
    }
  }

  lemma RefreshPlansFirst(slots: seq<Slot>, k: nat, n: nat, x: Slot, a: Asked)
    requires a.pol.grid > 0 && k < n && x == PlannedFor(slots, k, a)
    ensures x in Refresh(slots, k, n, a)
  {
    VisitPlans(slots, k, x, a);
    RefreshKeeps(Visit(slots, k, a), k + 1, n, x, a);
  }

  lemma {:induction false} RefreshPlans(slots: seq<Slot>, k: nat, n: nat, i: nat, x: Slot, a: Asked)
    requires a.pol.grid > 0 && k <= i < n && x == PlannedFor(slots, i, a)
    ensures x in Refresh(slots, k, n, a)
    decreases n - k
  {
    if i == k {
      RefreshPlansFirst(slots, k, n, x, a);
    } else {
      VisitKeepsOthers(slots, k, i, a);
      RefreshPlans(Visit(slots, k, a), k + 1, n, i, x, a);
    }
  }

  lemma {:induction false} RefreshShape(slots: seq<Slot>, k: nat, n: nat, a: Asked)
    requires a.pol.grid > 0 && k <= n && Below(slots, n)
    ensures Below(Refresh(slots, k, n, a), n)
    ensures NumbersDistinct(slots) ==> NumbersDistinct(Refresh(slots, k, n, a))
    decreases n - k
  {
    if k < n {
      VisitShape(slots, k, n, a);
      RefreshShape(Visit(slots, k, a), k + 1, n, a);
    }
  }

  predicate NewOrRotated(slots: seq<Slot>, i: nat, a: Asked)
  {
    Absent(slots, i) || i in a.rotate
  }

  lemma {:induction false} TouchesIff(slots: seq<Slot>, k: nat, n: nat, a: Asked)
    requires a.pol.grid > 0 && k <= n
    ensures Touches(slots, k, n, a) <==> exists i :: k <= i < n && NewOrRotated(slots, i, a)
    decreases n - k
  {
    if k < n {
      var next := Visit(slots, k, a);
      forall i | k < i < n ensures NewOrRotated(next, i, a) <==> NewOrRotated(slots, i, a) {
        VisitKeepsOthers(slots, k, i, a);
      }
      TouchesIff(next, k + 1, n, a);
      assert NewOrRotated(slots, k, a) <==> Absent(slots, k) || k in a.rotate;
    }
  }

  lemma {:induction false} KeepBelowShape(slots: seq<Slot>, n: nat)
    ensures var kept := KeepBelow(slots, n);
            Below(kept, n) && |kept| <= |slots| && (|kept| == |slots| <==> Below(slots, n))
  {
    if slots != [] {
      KeepBelowShape(slots[1..], n);
      assert Below(slots, n) <==> slots[0].slot < n && Below(slots[1..], n) by {
        assert forall i :: 0 <= i < |slots| - 1 ==> slots[1..][i] == slots[i + 1];
      }
    }
  }

  lemma {:induction false} KeepBelowDistinct(slots: seq<Slot>, n: nat)
    requires NumbersDistinct(slots)
    ensures NumbersDistinct(KeepBelow(slots, n))
    ensures forall x :: x in KeepBelow(slots, n) ==> exists i :: 0 <= i < |slots| && slots[i] == x
  {
    if slots != [] {
      var rest := KeepBelow(slots[1..], n);
      KeepBelowDistinct(slots[1..], n);
      forall x | x in rest ensures exists i :: 0 < i < |slots| && slots[i] == x {
        var i :| 0 <= i < |slots[1..]| && slots[1..][i] == x;
        assert slots[i + 1] == x;
      }
      forall j | 0 <= j < |rest| ensures rest[j].slot != slots[0].slot {
        assert rest[j] in rest;
      }
    }
  }

  lemma IndexOfCons(x: Slot, rest: seq<Slot>, i: nat)
    ensures IndexOf([x] + rest, i) == if x.slot == i then 0 else 1 + IndexOf(rest, i)
  {
    assert ([x] + rest)[1..] == rest;
  }

  lemma {:induction false} KeepBelowFinds(slots: seq<Slot>, n: nat, i: nat, a: Asked)
    requires i < n && a.pol.grid > 0
    ensures Absent(KeepBelow(slots, n), i) <==> Absent(slots, i)
    ensures PlannedFor(KeepBelow(slots, n), i, a) == PlannedFor(slots, i, a)
  {
    if slots != [] {
      var rest, kept := slots[1..], KeepBelow(slots[1..], n);
      KeepBelowFinds(rest, n, i, a);
      assert slots == [slots[0]] + rest;
      IndexOfCons(slots[0], rest, i);
      if slots[0].slot < n { IndexOfCons(slots[0], kept, i); } else { assert KeepBelow(slots, n) == kept; }
    }
  }

  lemma SlotLeqIsTotal()
    ensures TotalPreorder(SlotLeq)
  {}

  lemma SortKeepsNumbersDistinct(slots: seq<Slot>)
    requires NumbersDistinct(slots)
    ensures NumbersDistinct(SortBy(SlotLeq, slots))
  {
    var t := SortBy(SlotLeq, slots);
    SortKeepsNoDuplicates(SlotLeq, slots);
    SortKeepsMembers(SlotLeq, slots);
    forall i, j | 0 <= i < j < |t| ensures t[i].slot != t[j].slot {
      assert t[i] in t && t[j] in t;
    }
  }

  lemma SortKeepsBelow(slots: seq<Slot>, n: nat)
    requires Below(slots, n)
    ensures Below(SortBy(SlotLeq, slots), n)
  {
    var t := SortBy(SlotLeq, slots);
    SortKeepsMembers(SlotLeq, slots);
    forall i | 0 <= i < |t| ensures t[i].slot < n {
      assert t[i] in t;
    }
  }

  predicate Present(slots: seq<Slot>, number: nat)
  {
    exists j :: 0 <= j < |slots| && slots[j].slot == number
  }

  /** In number order, distinct and none missing: slot `i` stands at index `i`. */
  lemma {:induction false} FullPoolInOrder(slots: seq<Slot>, n: nat, k: nat)
    requires Sorted(SlotLeq, slots) && NumbersDistinct(slots) && k <= n
    requires forall i :: 0 <= i < n ==> Present(slots, i)
    ensures k <= |slots| && forall i :: 0 <= i < k ==> slots[i].slot == i
  {
    if k > 0 {
      FullPoolInOrder(slots, n, k - 1);
      assert Present(slots, k - 1);
      var j :| 0 <= j < |slots| && slots[j].slot == k - 1;
      assert k - 1 <= j;
      assert k - 1 < j ==> SlotLeq(slots[k - 1], slots[j]);
      assert k > 1 ==> SlotLeq(slots[k - 2], slots[k - 1]);
    }
  }

  lemma {:induction false} AtLeastIndex(slots: seq<Slot>, i: nat)
    requires Sorted(SlotLeq, slots) && NumbersDistinct(slots) && i < |slots|
    ensures i <= slots[i].slot
  {
    if i > 0 {
      AtLeastIndex(slots, i - 1);
      assert SlotLeq(slots[i - 1], slots[i]);
    }
  }

  lemma NoneBeyond(slots: seq<Slot>, n: nat)
    requires Sorted(SlotLeq, slots) && NumbersDistinct(slots) && Below(slots, n)
    ensures |slots| <= n
  {
    if |slots| > n { AtLeastIndex(slots, n); }
  }

  /**
   Planning, for any list of slots. What is left is in slot order and within
   the pool size, every number is there as planned for it, and where the
   numbers were distinct there is nothing else. A change is reported exactly
   when a slot was dropped, missing or rotated.
   */
  lemma PlannedMeaning(state: LeaseState, a: Asked)
    requires a.pol.grid > 0
    ensures var (next, changed) := Planned(state, a);
            var n := PoolSize(a.pol);
            && Sorted(SlotLeq, next.slots) && Below(next.slots, n)
            && (forall i :: 0 <= i < n ==> PlannedFor(state.slots, i, a) in next.slots)
            && (NumbersDistinct(state.slots) ==> |next.slots| == n && InOrder(next.slots))
            && (changed <==> !Below(state.slots, n) || exists i :: 0 <= i < n && NewOrRotated(state.slots, i, a))
            && next.applied == (state.applied && !changed)
            && next.lastRotationAt == state.lastRotationAt
  {
    PlannedList(state, a);
    PlannedChanged(state, a);
    if NumbersDistinct(state.slots) { PlannedFull(state, a); }
  }

  lemma PlannedList(state: LeaseState, a: Asked)
    requires a.pol.grid > 0
    ensures var next, n := Planned(state, a).0, PoolSize(a.pol);
            && Sorted(SlotLeq, next.slots) && Below(next.slots, n)
            && (forall i :: 0 <= i < n ==> PlannedFor(state.slots, i, a) in next.slots)
  {
    var n := PoolSize(a.pol);
    var kept := KeepBelow(state.slots, n);
    var slots := Refresh(kept, 0, n, a);
    KeepBelowShape(state.slots, n);
    RefreshShape(kept, 0, n, a);
    SortKeepsBelow(slots, n);
    SlotLeqIsTotal();
    SortSorts(SlotLeq, slots);
    SortKeepsMembers(SlotLeq, slots);
    forall i | 0 <= i < n ensures PlannedFor(state.slots, i, a) in SortBy(SlotLeq, slots) {
      KeepBelowFinds(state.slots, n, i, a);
      RefreshPlans(kept, 0, n, i, PlannedFor(kept, i, a), a);
    }
  }

  lemma PlannedChanged(state: LeaseState, a: Asked)
    requires a.pol.grid > 0
    ensures var n := PoolSize(a.pol);
            Planned(state, a).1 <==>
              !Below(state.slots, n) || exists i :: 0 <= i < n && NewOrRotated(state.slots, i, a)
  {
    var n := PoolSize(a.pol);
    var kept := KeepBelow(state.slots, n);
    KeepBelowShape(state.slots, n);
    forall i | 0 <= i < n ensures NewOrRotated(kept, i, a) <==> NewOrRotated(state.slots, i, a) {
      KeepBelowFinds(state.slots, n, i, a);
    }
    TouchesIff(kept, 0, n, a);
  }

  lemma PlannedFull(state: LeaseState, a: Asked)
    requires a.pol.grid > 0 && NumbersDistinct(state.slots)
    ensures var next := Planned(state, a).0; |next.slots| == PoolSize(a.pol) && InOrder(next.slots)
  {
    var n := PoolSize(a.pol);
    var kept := KeepBelow(state.slots, n);
    var slots := Refresh(kept, 0, n, a);
    var t := SortBy(SlotLeq, slots);
    assert NumbersDistinct(t) by {
      KeepBelowShape(state.slots, n);
      KeepBelowDistinct(state.slots, n);
      RefreshShape(kept, 0, n, a);
      SortKeepsNumbersDistinct(slots);
    }
    PlannedList(state, a);
    forall i | 0 <= i < n ensures Present(t, i) {
      PlannedNumber(state.slots, i, a);
      var j :| 0 <= j < |t| && t[j] == PlannedFor(state.slots, i, a);
    }
    FullPoolInOrder(t, n, n);
    NoneBeyond(t, n);
  }

  /** The pool a plan leaves where slot `i` stands at index `i`. */
  function PlannedSlot(slots: seq<Slot>, i: nat, a: Asked): Slot
    requires a.pol.grid > 0
  {
    if i >= |slots| then Mint(i, 1, a.now, a.pol, a.draw(i))
    else if i in a.rotate then Rotated(slots[i], a.now, a.pol, a.draw(i))
    else slots[i]
  }

  lemma FindInOrder(slots: seq<Slot>, i: nat, a: Asked)
    requires InOrder(slots) && a.pol.grid > 0
    ensures IndexOf(slots, i) == Min(i, |slots|) && PlannedFor(slots, i, a) == PlannedSlot(slots, i, a)
  {
    if i < |slots| { assert slots[i].slot == i; }
  }

  lemma PlannedInOrder(state: LeaseState, a: Asked)
    requires a.pol.grid > 0 && InOrder(state.slots)
    ensures var (next, changed) := Planned(state, a);
            var n := PoolSize(a.pol);
            && |next.slots| == n && InOrder(next.slots)
            && (forall i :: 0 <= i < n ==> next.slots[i] == PlannedSlot(state.slots, i, a))
            && (changed <==> |state.slots| != n || exists i :: 0 <= i < n && i in a.rotate)
            && next.applied == (state.applied && !changed)
            && next.lastRotationAt == state.lastRotationAt
  {
    var n := PoolSize(a.pol);
    PlannedMeaning(state, a);
    forall i | 0 <= i < n
      ensures Planned(state, a).0.slots[i] == PlannedSlot(state.slots, i, a)
    {
      PlannedAtIndex(state, a, i);
    }
    ChangedInOrder(state, a);
  }

  lemma PlannedAtIndex(state: LeaseState, a: Asked, i: nat)
    requires a.pol.grid > 0 && InOrder(state.slots) && i < PoolSize(a.pol)
    ensures var next := Planned(state, a).0;
            i < |next.slots| && next.slots[i] == PlannedSlot(state.slots, i, a)
  {
    var t := Planned(state, a).0.slots;
    PlannedMeaning(state, a);
    FindInOrder(state.slots, i, a);
    PlannedNumber(state.slots, i, a);
    var j :| 0 <= j < |t| && t[j] == PlannedFor(state.slots, i, a);
    assert t[j].slot == j;
  }

  lemma ChangedInOrder(state: LeaseState, a: Asked)
    requires a.pol.grid > 0 && InOrder(state.slots)
    ensures var n := PoolSize(a.pol);
            Planned(state, a).1 <==> |state.slots| != n || exists i :: 0 <= i < n && i in a.rotate
  {
    var n := PoolSize(a.pol);
    PlannedChanged(state, a);
    forall i | 0 <= i < n ensures NewOrRotated(state.slots, i, a) <==> i >= |state.slots| || i in a.rotate {
      FindInOrder(state.slots, i, a);
    }
    if |state.slots| > n { assert state.slots[n].slot == n; }
    if |state.slots| < n { assert NewOrRotated(state.slots, |state.slots|, a); }
  }

  // ------------------------------------------------------------- renewal

  /** The new end of validity if this slot's lease was extended, else none. */
  function Extension(s: Slot, view: RemoteView, now: int, pol: Policy): Option<int>
    requires pol.grid > 0
  {
    if s.slot !in view.slots then None
    else
      var rs := view.slots[s.slot];
      if rs.generation != s.generation || rs.state != "leased" || s.validUntil <= now || rs.extendTo.None? then None
      else
        var next := Min(RoundDown(rs.extendTo.value, pol.grid), RoundDown(now + pol.lifetime, pol.grid));
        if next > s.validUntil then Some(next) else None
  }

  function ExtendSlot(s: Slot, view: RemoteView, now: int, pol: Policy): Slot
    requires pol.grid > 0
  {
    var e := Extension(s, view, now, pol);
    if e.Some? then s.(validFrom := now, validUntil := e.value, revoked := false) else s
  }

  function CountExtended(slots: seq<Slot>, view: RemoteView, now: int, pol: Policy): nat
    requires pol.grid > 0
  {
    if slots == [] then 0
    else
      var last := |slots| - 1;
      CountExtended(slots[..last], view, now, pol) + (if Extension(slots[last], view, now, pol).Some? then 1 else 0)
  }

  function Extended(state: LeaseState, view: RemoteView, now: int, pol: Policy): LeaseState
    requires pol.grid > 0
  {
    state.(slots := seq(|state.slots|, i requires 0 <= i < |state.slots| => ExtendSlot(state.slots[i], view, now, pol)),
           applied := state.applied && CountExtended(state.slots, view, now, pol) == 0)
  }

  lemma CountExtendedStep(slots: seq<Slot>, i: nat, view: RemoteView, now: int, pol: Policy)
    requires pol.grid > 0 && i < |slots|
    ensures CountExtended(slots[..i + 1], view, now, pol)
         == CountExtended(slots[..i], view, now, pol) + if Extension(slots[i], view, now, pol).Some? then 1 else 0
  {
    assert slots[..i + 1][..i] == slots[..i];
  }

  lemma {:induction false} CountExtendedZero(slots: seq<Slot>, view: RemoteView, now: int, pol: Policy)
    requires pol.grid > 0
    ensures CountExtended(slots, view, now, pol) == 0 <==>
            forall i :: 0 <= i < |slots| ==> Extension(slots[i], view, now, pol).None?
  {
    if slots != [] {
      var rest := slots[..|slots| - 1];
      CountExtendedZero(rest, view, now, pol);
      assert forall i :: 0 <= i < |rest| ==> rest[i] == slots[i];
    }
  }

  /** An extension only moves the end forward, stays on the grid and within 30 minutes of now. */
  lemma ExtensionBounds(s: Slot, view: RemoteView, now: int, pol: Policy)
    requires PolicyOk(pol) && Extension(s, view, now, pol).Some?
    ensures var e := Extension(s, view, now, pol).value;
            now < s.validUntil < e <= now + pol.lifetime && OnGrid(e, pol.grid)
  {
    var rs := view.slots[s.slot];
    RoundDownFacts(rs.extendTo.value, pol.grid);
    RoundDownFacts(now + pol.lifetime, pol.grid);
  }

  // -------------------------------------------------------- sync answers

  datatype Extend = NoExtend | BadDate | ExtendAt(at: int)

  /** One decoded answer item; a field that is absent or of the wrong type is `None`. */
  datatype SyncItem = SyncItem(
    slot: Option<nat>, generation: Option<nat>, state: Option<string>, urgent: bool, extend: Extend)

  /** A decoded answer; `asOf` is `None` when missing or not a date. */
  datatype SyncAnswer = SyncAnswer(asOf: Option<int>, minRemaining: Option<int>, items: seq<SyncItem>)

  predicate ItemComplete(item: SyncItem)
  {
    item.slot.Some? && item.generation.Some? && item.state.Some?
  }

  predicate AnswerReadable(a: SyncAnswer)
  {
    a.asOf.Some? && forall i :: 0 <= i < |a.items| && ItemComplete(a.items[i]) ==> !a.items[i].extend.BadDate?
  }

  /** The slot map an answer builds, later items replacing earlier ones for the same number. */
  function RemoteSlots(items: seq<SyncItem>): map<nat, RemoteSlot>
  {
    if items == [] then map[]
    else
      var item := items[|items| - 1];
      var rest := RemoteSlots(items[..|items| - 1]);
      if ItemComplete(item)
      then rest[item.slot.value % U32_RANGE := RemoteSlot(item.generation.value, item.state.value, item.urgent,
                                                        if item.extend.ExtendAt? then Some(item.extend.at) else None)]
      else rest
  }

  function ViewOf(a: SyncAnswer): RemoteView
    requires a.asOf.Some?
  {
    RemoteView(a.asOf.value, if a.minRemaining.Some? then a.minRemaining.value else DEFAULT_MIN_REMAINING_SECS,
               RemoteSlots(a.items))
  }

  /** Bookkeeping only: whether the control plane stored this generation, and revoked it. */
  function MarkSlot(s: Slot, view: RemoteView): Slot
  {
    var known := s.slot in view.slots && view.slots[s.slot].generation == s.generation;
    s.(reported := known, revoked := known && view.slots[s.slot].state == "revoked")
  }

  function Marked(state: LeaseState, view: RemoteView): LeaseState
  {
    state.(slots := seq(|state.slots|, i requires 0 <= i < |state.slots| => MarkSlot(state.slots[i], view)))
  }

  // --------------------------------------------------------------- files

  /** What loading does to one persisted slot: ids and start of a pre-authorization file are filled in. */
  function MigrateSlot(s: Slot, draw: Secrets): Slot
  {
    s.(principalId := if s.principalId == "" then draw.principalId else s.principalId,
       credentialId := if s.credentialId == "" then draw.credentialId else s.credentialId,
       validFrom := if s.validFrom == 0 then s.validUntil - NATIVE_LEASE_SECS else s.validFrom)
  }

  function Loaded(state: LeaseState, draw: nat -> Secrets): LeaseState
  {
    state.(slots := seq(|state.slots|, i requires 0 <= i < |state.slots| => MigrateSlot(state.slots[i], draw(i))))
  }
}
