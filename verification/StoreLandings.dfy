/**
 What each writer leaves in the user list, record by record: the carried
 users, then one user per slot or authorization with its fields; and, in one
 statement, from an item of the control plane's answer to the user record.
 */
module StoreLandings {
  import opened Prelude
  import opened Authorizations
  import opened UserStore
  import opened StoreTheorems
  import opened ExternalSnapshots

  // ------------------------------------------------------------ carried

  /** The writer does not own it: no slot by number and no native credential, or no external credential. */
  predicate Foreign(u: User, lease: bool)
  {
    if lease then !("lease-" <= u.id) && !("cred_" <= u.id && "native_" <= u.name)
    else !("cred_" <= u.id && "ext_" <= u.name)
  }

  /** `kept` is the users at these places, in order, and those are the ones the writer does not own. */
  ghost predicate Carries(kept: seq<User>, at: seq<nat>, users: seq<User>, lease: bool)
  {
    && |at| == |kept| && Increasing(at)
    && (forall k :: 0 <= k < |at| ==> at[k] < |users| && kept[k] == users[at[k]])
    && forall i :: 0 <= i < |users| ==> (i in at <==> Foreign(users[i], lease))
  }

  lemma CarriesGrows(kept: seq<User>, at: seq<nat>, users: seq<User>, lease: bool, u: User)
    requires Carries(kept, at, users, lease)
    ensures var keep := Foreign(u, lease);
            Carries(kept + KeepIf(keep, u), at + if keep then [|users|] else [], users + [u], lease)
  {
    assert forall k :: 0 <= k < |at| ==> at[k] in at;
  }

  lemma {:induction false} NonExternalCarries(users: seq<User>) returns (at: seq<nat>)
    ensures Carries(NonExternal(users), at, users, false)
  {
    if users == [] {
      at := [];
    } else {
      var n := |users| - 1;
      var before := NonExternalCarries(users[..n]);
      at := before + if !IsExternal(users[n]) then [n] else [];
      CarriesGrows(NonExternal(users[..n]), before, users[..n], false, users[n]);
      NonExternalAppend(users[..n], [users[n]]);
      assert users == users[..n] + [users[n]] && NonExternal([users[n]]) == KeepIf(!IsExternal(users[n]), users[n]);
    }
  }

  lemma {:induction false} NonLeaseCarries(users: seq<User>) returns (at: seq<nat>)
    ensures Carries(NonLease(users), at, users, true)
  {
    if users == [] {
      at := [];
    } else {
      var n := |users| - 1;
      var before := NonLeaseCarries(users[..n]);
      at := before + if !IsLease(users[n]) then [n] else [];
      CarriesGrows(NonLease(users[..n]), before, users[..n], true, users[n]);
      NonLeaseAppend(users[..n], [users[n]]);
      assert users == users[..n] + [users[n]] && NonLease([users[n]]) == KeepIf(!IsLease(users[n]), users[n]);
    }
  }

  /** A user that was not there before: nothing carried, and a token of its own. */
  predicate New(u: User, token: string)
  {
    u.tokenHash == token && u.carried == Carried(false, false, map[], [])
  }

  predicate Inherits(u: User, was: User)
  {
    u.tokenHash == was.tokenHash && u.carried == was.carried
  }

  // ----------------------------------------------------- external writer

  /** The user says what the authorization says. */
  predicate SpeaksFor(u: User, a: Authorization)
  {
    && u.id == a.credentialId && u.name == a.principalId && u.enabled == !a.revoked
    && u.createdAt == a.validFrom && u.expiresAt == Some(a.validUntil)
    && u.vlessUuid == (if a.vlessUuid.Some? then Lower(a.vlessUuid.value) else "")
    && u.hysteria2Password == (if a.hysteria2Password.Some? then a.hysteria2Password.value else "")
  }

  predicate ExternalWith(u: User, id: string)
  {
    "cred_" <= u.id && "ext_" <= u.name && u.id == id
  }

  ghost predicate FirstExternal(users: seq<User>, id: string, i: nat)
  {
    i < |users| && ExternalWith(users[i], id) && forall j :: 0 <= j < i ==> !ExternalWith(users[j], id)
  }

  /** The user of one authorization: what it says, over the first external user with its id or over nothing. */
  ghost predicate ExternalLands(u: User, a: Authorization, users: seq<User>, token: string -> string)
  {
    && SpeaksFor(u, a)
    && (forall i: nat :: FirstExternal(users, a.credentialId, i) ==>
         Inherits(u, users[i]) && u.visionOff == users[i].visionOff && u.googleHairpin == users[i].googleHairpin)
    && ((forall i :: 0 <= i < |users| ==> !ExternalWith(users[i], a.credentialId)) ==>
         New(u, token(a.credentialId)) && !u.visionOff && !u.googleHairpin)
  }

  lemma {:induction false} FindExternalIsFirst(users: seq<User>, id: string, i: nat)
    requires FirstExternal(users, id, i)
    ensures FindExternal(users, id) == Some(users[i])
  {
    if i > 0 {
      assert forall j :: 0 <= j < i ==> users[1..][j] == users[j + 1];
      FindExternalIsFirst(users[1..], id, i - 1);
    }
  }

  lemma {:induction false} FindExternalMissing(users: seq<User>, id: string)
    requires forall i :: 0 <= i < |users| ==> !ExternalWith(users[i], id)
    ensures FindExternal(users, id).None?
  {
    if users != [] { FindExternalMissing(users[1..], id); }
  }

  lemma ExternalUserLands(users: seq<User>, a: Authorization, now: int, token: string -> string)
    ensures ExternalLands(ExternalUser(users, a, now, token), a, users, token)
  {
    var id := a.credentialId;
    FindExternalFacts(users, id);
    forall i: nat | FirstExternal(users, id, i) ensures FindExternal(users, id) == Some(users[i]) {
      FindExternalIsFirst(users, id, i);
    }
    if forall i :: 0 <= i < |users| ==> !ExternalWith(users[i], id) { FindExternalMissing(users, id); }
  }

  lemma CredentialOrderIsTotal()
    ensures TotalPreorder(CredentialInOrder)
  {
    forall x: Authorization, y: Authorization ensures CredentialInOrder(x, y) || CredentialInOrder(y, x) {
      TextLeqTotal(x.credentialId, y.credentialId);
    }
    forall x: Authorization, y: Authorization, z: Authorization | CredentialInOrder(x, y) && CredentialInOrder(y, z)
      ensures CredentialInOrder(x, z)
    {
      TextLeqTransitive(x.credentialId, y.credentialId, z.credentialId);
    }
  }

  /**
   How an accepted set lands: every user the writer does not own, where it
   was, then one user per authorization in the order of their ids.
   */
  lemma ExternalSetLands(users: seq<User>, auths: seq<Authorization>, now: int, token: string -> string)
    returns (at: seq<nat>, order: seq<Authorization>)
    requires ExternalAccepts(users, auths)
    ensures multiset(order) == multiset(auths)
    ensures forall i, j :: 0 <= i < j < |order| ==>
              TextLeq(order[i].credentialId, order[j].credentialId) && order[i].credentialId != order[j].credentialId
    ensures var next := ExternalApplied(users, auths, now, token);
            |at| + |order| == |next| && Carries(next[..|at|], at, users, false)
            && forall i :: 0 <= i < |order| ==> ExternalLands(next[|at| + i], order[i], users, token)
  {
    at := NonExternalCarries(users);
    order := ExternalOrder(auths);
    CredentialOrderIsTotal();
    SortSorts(CredentialInOrder, auths);
    SortPermutes(CredentialInOrder, auths);
    forall i, j | 0 <= i < j < |order| ensures TextLeq(order[i].credentialId, order[j].credentialId) {
      assert CredentialInOrder(order[i], order[j]);
    }
    ExternalUsersLand(users, order, now, token);
    Joined(NonExternal(users), ExternalUsers(users, order, now, token), ExternalApplied(users, auths, now, token));
  }

  lemma ExternalUsersLand(users: seq<User>, order: seq<Authorization>, now: int, token: string -> string)
    ensures forall i :: 0 <= i < |order| ==>
              ExternalLands(ExternalUsers(users, order, now, token)[i], order[i], users, token)
  {
    forall i | 0 <= i < |order|
      ensures ExternalLands(ExternalUsers(users, order, now, token)[i], order[i], users, token)
    {
      ExternalUserLands(users, order[i], now, token);
    }
  }

  /** The user says what the item of the answer says. */
  predicate SpeaksForItem(u: User, w: WireItem)
  {
    && u.id == w.credentialId && u.name == w.principalId && u.enabled == !w.revoked
    && w.validFrom == Some(u.createdAt) && u.expiresAt == w.validUntil
    && u.vlessUuid == (if w.vlessUuid.Some? then Lower(w.vlessUuid.value) else "")
    && u.hysteria2Password == (if w.hysteria2Password.Some? then w.hysteria2Password.value else "")
  }

  /**
   From the answer to the list: a fit item has exactly one user with its
   credential id, and that user says what the item says; every external user
   is the user of a fit item, so what was quarantined is gone.
   */
  lemma SnapshotLands(w: Wire, users: seq<User>, now: int, token: string -> string, i: nat) returns (m: nat)
    requires Reading(w).Some? && ExternalAccepts(users, Reading(w).value.desired)
    requires i < |Sent(w)| && Fit(Sent(w)[i])
    ensures var next, item := ExternalApplied(users, Reading(w).value.desired, now, token), Sent(w)[i];
            && m < |next| && SpeaksForItem(next[m], item)
            && forall k :: 0 <= k < |next| && k != m ==> next[k].id != item.credentialId
  {
    var desired := Reading(w).value.desired;
    var held, out := ReadingIsFailClosed(w);
    assert i in held;
    var h :| 0 <= h < |held| && held[h] == i;
    m := OnlyUserOf(users, desired, now, token, h);
  }

  /** The same, of the sayings alone. */
  lemma ExternalSetSpeaks(users: seq<User>, auths: seq<Authorization>, now: int, token: string -> string)
    returns (base: nat, order: seq<Authorization>)
    requires ExternalAccepts(users, auths)
    ensures multiset(order) == multiset(auths) && DistinctIds(order)
    ensures var next := ExternalApplied(users, auths, now, token);
            && base + |order| == |next|
            && (forall i :: 0 <= i < base ==> next[i] in users && !IsExternal(next[i]))
            && forall i :: base <= i < |next| ==> SpeaksFor(next[i], order[i - base])
  {
    var next := ExternalApplied(users, auths, now, token);
    var at, o := ExternalSetLands(users, auths, now, token);
    base, order := |at|, o;
    forall i | 0 <= i < base ensures next[i] in users && !IsExternal(next[i]) {
      CarriedAt(next[..base], at, users, i);
      assert next[..base][i] == next[i];
    }
    forall i | base <= i < |next| ensures SpeaksFor(next[i], order[i - base]) {
      assert ExternalLands(next[base + (i - base)], order[i - base], users, token);
    }
  }

  lemma CarriedAt(kept: seq<User>, at: seq<nat>, users: seq<User>, i: nat)
    requires Carries(kept, at, users, false) && i < |kept|
    ensures kept[i] in users && !IsExternal(kept[i])
  {
    assert at[i] in at;
  }

  lemma OnlyLanding(next: seq<User>, base: nat, order: seq<Authorization>, o: nat)
    requires base + |order| == |next| && o < |order| && DistinctIds(order)
    requires forall i :: 0 <= i < base ==> next[i].id != order[o].credentialId
    requires forall i :: base <= i < |next| ==> next[i].id == order[i - base].credentialId
    ensures forall k :: 0 <= k < |next| && k != base + o ==> next[k].id != order[o].credentialId
  {
    forall k | base <= k < |next| && k != base + o ensures next[k].id != order[o].credentialId {
      assert order[Min(k - base, o)].credentialId != order[Max(k - base, o)].credentialId;
    }
  }

  lemma OnlyUserOf(users: seq<User>, auths: seq<Authorization>, now: int, token: string -> string, h: nat)
    returns (m: nat)
    requires ExternalAccepts(users, auths) && h < |auths|
    ensures var next := ExternalApplied(users, auths, now, token);
            && m < |next| && SpeaksFor(next[m], auths[h])
            && forall k :: 0 <= k < |next| && k != m ==> next[k].id != auths[h].credentialId
  {
    var base, order := ExternalSetSpeaks(users, auths, now, token);
    m := OnlyUserAmong(ExternalApplied(users, auths, now, token), base, order, users, auths, h);
  }

  lemma OnlyUserAmong(next: seq<User>, base: nat, order: seq<Authorization>, users: seq<User>,
                      auths: seq<Authorization>, h: nat) returns (m: nat)
    requires base + |order| == |next| && multiset(order) == multiset(auths) && DistinctIds(order) && h < |auths|
    requires NoExternalCollision(users, auths)
    requires forall i :: 0 <= i < base ==> next[i] in users && !IsExternal(next[i])
    requires forall i :: base <= i < |next| ==> SpeaksFor(next[i], order[i - base])
    ensures m < |next| && SpeaksFor(next[m], auths[h])
    ensures forall k :: 0 <= k < |next| && k != m ==> next[k].id != auths[h].credentialId
  {
    assert auths[h] in multiset(order);
    var o :| 0 <= o < |order| && order[o] == auths[h];
    m := base + o;
    forall i | 0 <= i < base ensures next[i].id != order[o].credentialId {
      NotTaken(users, auths, next[i], h);
    }
    OnlyLanding(next, base, order, o);
  }

  lemma NotTaken(users: seq<User>, auths: seq<Authorization>, u: User, h: nat)
    requires NoExternalCollision(users, auths) && u in users && !IsExternal(u) && h < |auths|
    ensures u.id != auths[h].credentialId
  {}

  lemma ExternalUsersAreSent(w: Wire, users: seq<User>, now: int, token: string -> string, m: nat) returns (i: nat)
    requires Reading(w).Some? && ExternalAccepts(users, Reading(w).value.desired)
    requires m < |ExternalApplied(users, Reading(w).value.desired, now, token)|
    requires IsExternal(ExternalApplied(users, Reading(w).value.desired, now, token)[m])
    ensures i < |Sent(w)| && Fit(Sent(w)[i])
    ensures SpeaksForItem(ExternalApplied(users, Reading(w).value.desired, now, token)[m], Sent(w)[i])
  {
    var desired := Reading(w).value.desired;
    var next := ExternalApplied(users, desired, now, token);
    var base, order := ExternalSetSpeaks(users, desired, now, token);
    assert order[m - base] in multiset(desired);
    var h :| 0 <= h < |desired| && desired[h] == order[m - base];
    var held, out := ReadingIsFailClosed(w);
    i := held[h];
    assert i in held;
  }

  // -------------------------------------------------------- lease writer

  /** Four decimal digits. */
  function Decimal(s: string): int
    requires |s| == 4
  {
    1000 * (s[0] as int - '0' as int) + 100 * (s[1] as int - '0' as int) + 10 * (s[2] as int - '0' as int)
    + (s[3] as int - '0' as int)
  }

  lemma LeaseUserIdReads(slot: nat)
    requires slot < MAX_SLOTS
    ensures var id := LeaseUserId(slot); |id| == 10 && id[..6] == "lease-" && Decimal(id[6..]) == slot
    ensures forall i :: 6 <= i < 10 ==> '0' <= LeaseUserId(slot)[i] <= '9'
  {
    FourDigits(slot);
  }

  /** The id a slot goes by: its credential id, or its number. */
  predicate GoesBy(s: LeaseSlotInput, id: string)
  {
    if s.credentialId.Some? then id == s.credentialId.value
    else && |id| == 10 && id[..6] == "lease-" && Decimal(id[6..]) == s.slot
         && forall i :: 6 <= i < 10 ==> '0' <= id[i] <= '9'
  }

  /** The user says what the slot says. */
  predicate SpeaksForSlot(u: User, s: LeaseSlotInput)
  {
    && GoesBy(s, u.id) && u.name == (if s.principalId.Some? then s.principalId.value else u.id)
    && u.enabled == !s.revoked && u.vlessUuid == Lower(s.vlessUuid) && u.hysteria2Password == s.hysteria2Password
    && u.expiresAt == Some(s.expiresAt) && !u.visionOff && !u.googleHairpin
    && (s.validFrom.Some? ==> u.createdAt == s.validFrom.value)
  }

  ghost predicate FirstWith(users: seq<User>, id: string, i: nat)
  {
    i < |users| && users[i].id == id && forall j :: 0 <= j < i ==> users[j].id != id
  }

  /** The user of one slot: what it says, over the first user of any owner with its id or over nothing. */
  ghost predicate SlotLands(u: User, s: LeaseSlotInput, users: seq<User>, now: int, token: string -> string)
  {
    && SpeaksForSlot(u, s)
    && (forall i: nat :: FirstWith(users, u.id, i) ==>
         Inherits(u, users[i]) && (s.validFrom.None? ==> u.createdAt == users[i].createdAt))
    && ((forall i :: 0 <= i < |users| ==> users[i].id != u.id) ==>
         New(u, token(u.id)) && (s.validFrom.None? ==> u.createdAt == now))
  }

  lemma {:induction false} FindUserIsFirst(users: seq<User>, id: string, i: nat)
    requires FirstWith(users, id, i)
    ensures FindUser(users, id) == Some(users[i])
  {
    if i > 0 {
      assert forall j :: 0 <= j < i ==> users[1..][j] == users[j + 1];
      FindUserIsFirst(users[1..], id, i - 1);
    }
  }

  lemma LeaseUserLands(users: seq<User>, s: LeaseSlotInput, now: int, token: string -> string)
    requires s.slot < MAX_SLOTS
    ensures SlotLands(LeaseUser(users, s, now, token), s, users, now, token)
  {
    LeaseUserIdReads(s.slot);
    LeaseUserFacts(users, s, now, token);
    var id := SlotUserId(s);
    FindUserNone(users, id);
    forall i: nat | FirstWith(users, id, i) ensures FindUser(users, id) == Some(users[i]) {
      FindUserIsFirst(users, id, i);
    }
  }

  lemma InputOrderIsTotal()
    ensures TotalPreorder(InputInOrder)
  {}

  lemma LeaseOrder(slots: seq<LeaseSlotInput>) returns (order: seq<LeaseSlotInput>)
    requires SlotsOk(slots)
    ensures order == SortBy(InputInOrder, slots) && SlotsInRange(slots) && SlotsInRange(order)
    ensures multiset(order) == multiset(slots)
    ensures forall i, j :: 0 <= i < j < |order| ==> order[i].slot < order[j].slot
  {
    order := WrittenOrder(slots);
    InputOrderIsTotal();
    SortSorts(InputInOrder, slots);
    SortPermutes(InputInOrder, slots);
    forall i, j | 0 <= i < j < |order| ensures order[i].slot < order[j].slot {
      assert InputInOrder(order[i], order[j]);
      SlotTwice(slots, order, i, j);
    }
  }

  lemma SlotTwice(slots: seq<LeaseSlotInput>, order: seq<LeaseSlotInput>, i: nat, j: nat)
    requires SlotsOk(slots) && NoDuplicates(order) && (forall x :: x in order <==> x in slots) && i < j < |order|
    ensures order[i].slot != order[j].slot
  {
    assert order[i] in order && order[j] in order && order[i] != order[j];
    var a :| 0 <= a < |slots| && slots[a] == order[i];
    var b :| 0 <= b < |slots| && slots[b] == order[j];
    assert slots[Min(a, b)].slot != slots[Max(a, b)].slot;
  }

  /**
   How an accepted pool lands, slots of older agents included: every user the
   writer does not own, where it was, then one user per slot in slot order.
   */
  lemma LeasePoolLands(users: seq<User>, slots: seq<LeaseSlotInput>, now: int, token: string -> string)
    returns (at: seq<nat>, order: seq<LeaseSlotInput>)
    requires LeaseAccepts(users, slots)
    ensures SlotsInRange(slots) && multiset(order) == multiset(slots) && |slots| <= 4096
    ensures forall i :: 0 <= i < |slots| ==> slots[i].slot < 4096
    ensures |at| + |order| == |LeaseApplied(users, slots, now, token)|
    ensures forall i, j :: 0 <= i < j < |order| ==> order[i].slot < order[j].slot
    ensures var next := LeaseApplied(users, slots, now, token);
            && Carries(next[..|at|], at, users, true)
            && forall i :: 0 <= i < |order| ==> SlotLands(next[|at| + i], order[i], users, now, token)
  {
    at := NonLeaseCarries(users);
    order := LeaseOrder(slots);
    LeaseUsersLand(users, order, now, token);
    Joined(NonLease(users), LeaseUsers(users, order, now, token), LeaseApplied(users, slots, now, token));
  }

  lemma LeaseUsersLand(users: seq<User>, order: seq<LeaseSlotInput>, now: int, token: string -> string)
    requires SlotsInRange(order)
    ensures forall i :: 0 <= i < |order| ==>
              SlotLands(LeaseUsers(users, order, now, token)[i], order[i], users, now, token)
  {
    forall i | 0 <= i < |order|
      ensures SlotLands(LeaseUsers(users, order, now, token)[i], order[i], users, now, token)
    {
      LeaseUserLands(users, order[i], now, token);
    }
  }

  lemma Joined(kept: seq<User>, built: seq<User>, next: seq<User>)
    requires next == kept + built
    ensures next[..|kept|] == kept && forall i :: 0 <= i < |built| ==> next[|kept| + i] == built[i]
  {}
}
