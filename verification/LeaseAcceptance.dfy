/**
 Where the agent and the admin tool meet: every pool the agent can reach is
 taken by the lease writer, and lands in the user list slot for slot.
 */
module LeaseAcceptance {
  import opened Prelude
  import opened Authorizations
  import opened LeaseSlots
  import opened LeaseRuns
  import opened UserStore
  import opened StoreTheorems

  /** One slot as handed to the admin tool. */
  function InputOf(s: Slot): LeaseSlotInput
  {
    LeaseSlotInput(s.slot, s.vlessUuid, s.hysteria2Password, s.validUntil, Some(s.principalId), Some(s.credentialId),
                   Some(s.cls), Some(s.validFrom), s.revoked)
  }

  function PoolInput(slots: seq<Slot>): seq<LeaseSlotInput>
  {
    seq(|slots|, i requires 0 <= i < |slots| => InputOf(slots[i]))
  }

  lemma {:induction false} PoolAuthorizations(slots: seq<Slot>)
    ensures |AuthorizationsOf(PoolInput(slots))| == |slots|
    ensures forall i :: 0 <= i < |slots| ==> AuthorizationsOf(PoolInput(slots))[i] == AuthorizationOf(InputOf(slots[i]))
  {
    if slots != [] {
      var last := |slots| - 1;
      PoolAuthorizations(slots[..last]);
      assert PoolInput(slots)[..last] == PoolInput(slots[..last]);
    }
  }

  lemma SlotItemValid(s: Slot, grid: int)
    requires grid > 0 && SlotOk(s, grid)
    ensures ItemOk(AuthorizationOf(InputOf(s)))
  {}

  /** A principal with a single credential meets every set rule. */
  lemma {:induction false} AtMostOneLive(s: seq<Authorization>, p: string)
    requires forall i, j :: 0 <= i < j < |s| ==> s[i].principalId != s[j].principalId
    ensures |LiveOf(s, p)| <= 1
  {
    if s != [] {
      AtMostOneLive(s[1..], p);
      if s[0].principalId == p && LiveOf(s[1..], p) != [] {
        LiveOfMembers(s[1..], p, LiveOf(s[1..], p)[0]);
        assert false;
      }
    }
  }

  lemma SinglePrincipalsValid(s: seq<Authorization>)
    requires ItemsOk(s) && DistinctIds(s)
    requires forall i, j :: 0 <= i < j < |s| ==> s[i].principalId != s[j].principalId
    ensures ValidSet(s)
  {
    forall p ensures PrincipalOk(s, p) {
      AtMostOneLive(s, p);
      forall t ensures CountAt(LiveOf(s, p), t) <= MAX_SIMULTANEOUS {
        if LiveOf(s, p) != [] { assert LiveOf(s, p)[1..] == []; }
      }
    }
  }

  /** A well-formed pool is refused only if a user of another owner already has one of its uuids. */
  lemma PoolAcceptedIff(users: seq<User>, st: LeaseState, pol: Policy)
    requires PolicyOk(pol) && PoolOk(st, pol) && AllApart(st.slots)
    ensures LeaseAccepts(users, PoolInput(st.slots)) <==> NoLeaseCollision(users, PoolInput(st.slots))
  {
    var slots := PoolInput(st.slots);
    var auths := AuthorizationsOf(slots);
    PoolAuthorizations(st.slots);
    forall i | 0 <= i < |auths| ensures ItemOk(auths[i]) && SlotShapeOk(slots[i]) {
      SlotItemValid(st.slots[i], pol.grid);
    }
    forall i, j | 0 <= i < j < |auths|
      ensures auths[i].principalId != auths[j].principalId && auths[i].credentialId != auths[j].credentialId
    {
      assert SlotsApart(st.slots[i], st.slots[j]);
    }
    SinglePrincipalsValid(auths);
    forall i, j | 0 <= i < j < |slots| ensures Lower(slots[i].vlessUuid) != Lower(slots[j].vlessUuid) {
      assert SlotsApart(st.slots[i], st.slots[j]);
    }
  }

  /** The user of slot `s`: its credential, principal, secrets and bounds, owned by the lease writer. */
  predicate CarriesLease(u: User, s: Slot)
  {
    && u.id == s.credentialId && u.name == s.principalId && u.enabled == !s.revoked
    && u.vlessUuid == Lower(s.vlessUuid) && u.hysteria2Password == s.hysteria2Password
    && u.createdAt == s.validFrom && u.expiresAt == Some(s.validUntil) && IsLease(u)
  }

  lemma SlotLands(users: seq<User>, s: Slot, grid: int, now: int, token: string -> string)
    requires grid > 0 && SlotOk(s, grid) && s.slot < MAX_SLOTS
    ensures CarriesLease(LeaseUser(users, InputOf(s), now, token), s)
  {
    LeaseUserFacts(users, InputOf(s), now, token);
  }

  lemma PoolInputSorted(slots: seq<Slot>, pol: Policy)
    requires LeaseSlots.InOrder(slots) && |slots| <= PoolSize(pol)
    ensures SlotsInRange(PoolInput(slots)) && SortBy(InputInOrder, PoolInput(slots)) == PoolInput(slots)
  {
    SortOfSorted(InputInOrder, PoolInput(slots));
  }

  /** How an accepted pool lands: the others, then one user per slot carrying its lease. */
  lemma PoolLands(users: seq<User>, st: LeaseState, pol: Policy, now: int, token: string -> string)
    requires PolicyOk(pol) && PoolOk(st, pol) && AllApart(st.slots)
    ensures SlotsInRange(PoolInput(st.slots))
    ensures var next := LeaseApplied(users, PoolInput(st.slots), now, token);
            var base := |NonLease(users)|;
            && |next| == base + |st.slots| && next[..base] == NonLease(users)
            && forall i :: 0 <= i < |st.slots| ==> CarriesLease(next[base + i], st.slots[i])
  {
    PoolInputSorted(st.slots, pol);
    var built := LeaseUsers(users, PoolInput(st.slots), now, token);
    forall i | 0 <= i < |st.slots| ensures CarriesLease(built[i], st.slots[i]) {
      SlotLands(users, st.slots[i], pol.grid, now, token);
    }
  }

  /** At every point of every run the pool in memory is accepted, short of a foreign uuid collision. */
  lemma ReachablePoolsAccepted(r: Run, k: nat, users: seq<User>)
    requires Valid(r) && k <= |r.steps|
    ensures LeaseAccepts(users, PoolInput(r.nodes[k].state.slots))
       <==> NoLeaseCollision(users, PoolInput(r.nodes[k].state.slots))
  {
    PoolAlwaysOk(r, k);
    PoolAcceptedIff(users, r.nodes[k].state, r.pol);
  }

  // ------------------------------------------- when the order does matter

  /**
   A stale external user whose credential id a native slot reuses: both
   orders succeed, but only one of them lets the slot inherit its token.
   */
  lemma OrderCanMatter(e: User, s: Slot, pol: Policy, now: int, token: string -> string)
    requires PolicyOk(pol) && PoolOk(LeaseState([s], false, 0), pol)
    requires IsExternal(e) && e.id == s.credentialId && Lower(e.vlessUuid) != Lower(s.vlessUuid)
    requires e.tokenHash != token(e.id)
    ensures var slots := PoolInput([s]);
            && LeaseAccepts([e], slots) && SlotsInRange(slots) && ExternalAccepts([e], [])
            && ExternalAccepts(LeaseApplied([e], slots, now, token), [])
            && LeaseAccepts(ExternalApplied([e], [], now, token), slots)
            && multiset(ExternalApplied(LeaseApplied([e], slots, now, token), [], now, token))
            != multiset(LeaseApplied(ExternalApplied([e], [], now, token), slots, now, token))
  {
    var slots := PoolInput([s]);
    assert slots == [InputOf(s)];
    BothOrdersAccepted(e, s, pol, now, token);
    NotKeptSame(e, s, now, token);
    WritersCommuteIff([e], slots, [], now, token);
    assert !KeepsSame([e], slots[0], now, token);
  }

  lemma BothOrdersAccepted(e: User, s: Slot, pol: Policy, now: int, token: string -> string)
    requires PolicyOk(pol) && PoolOk(LeaseState([s], false, 0), pol)
    requires IsExternal(e) && Lower(e.vlessUuid) != Lower(s.vlessUuid)
    ensures var slots := PoolInput([s]);
            && LeaseAccepts([e], slots) && SlotsInRange(slots) && ExternalAccepts([e], [])
            && ExternalAccepts(LeaseApplied([e], slots, now, token), [])
            && LeaseAccepts(ExternalApplied([e], [], now, token), slots)
  {
    var st := LeaseState([s], false, 0);
    assert PoolInput([s]) == [InputOf(s)];
    EmptySetValid();
    PoolAcceptedIff([e], st, pol);
    PoolAcceptedIff([], st, pol);
    NonExternalFacts([e]);
    assert ExternalApplied([e], [], now, token) == [];
  }

  lemma NotKeptSame(e: User, s: Slot, now: int, token: string -> string)
    requires s.slot < MAX_SLOTS && IsExternal(e) && e.id == s.credentialId && e.tokenHash != token(e.id)
    ensures !KeepsSame([e], InputOf(s), now, token)
  {
    NonExternalFacts([e]);
    assert NonExternal([e]) == [];
    assert FindUser([e], e.id) == Some(e) && FindUser([], e.id).None?;
  }
}
