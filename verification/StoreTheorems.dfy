/**
 What the two writers of the user list guarantee each other: carried users,
 re-application, either order, and unique uuids over any interleaving.
 */
module StoreTheorems {
  import opened Prelude
  import opened Authorizations
  import opened UserStore

  // ------------------------------------------------- lists and look-ups

  lemma {:induction false} NonLeaseAppend(a: seq<User>, b: seq<User>)
    ensures NonLease(a + b) == NonLease(a) + NonLease(b)
  {
    if a == [] {
      assert a + b == b;
    } else {
      NonLeaseAppend(a[1..], b);
      HeadTail(a, b);
      Regroup(KeepIf(!IsLease(a[0]), a[0]), NonLease(a[1..]), NonLease(b));
    }
  }

  lemma {:induction false} NonExternalAppend(a: seq<User>, b: seq<User>)
    ensures NonExternal(a + b) == NonExternal(a) + NonExternal(b)
  {
    if a == [] {
      assert a + b == b;
    } else {
      NonExternalAppend(a[1..], b);
      HeadTail(a, b);
      Regroup(KeepIf(!IsExternal(a[0]), a[0]), NonExternal(a[1..]), NonExternal(b));
    }
  }

  lemma {:induction false} NonLeaseFacts(users: seq<User>)
    ensures forall u :: u in NonLease(users) <==> u in users && !IsLease(u)
    ensures (forall u :: u in users ==> !IsLease(u)) ==> NonLease(users) == users
    ensures (forall u :: u in users ==> IsLease(u)) ==> NonLease(users) == []
  {
    if users != [] {
      NonLeaseFacts(users[1..]);
      assert users == [users[0]] + users[1..];
    }
  }

  lemma {:induction false} NonExternalFacts(users: seq<User>)
    ensures forall u :: u in NonExternal(users) <==> u in users && !IsExternal(u)
    ensures (forall u :: u in users ==> !IsExternal(u)) ==> NonExternal(users) == users
    ensures (forall u :: u in users ==> IsExternal(u)) ==> NonExternal(users) == []
  {
    if users != [] {
      NonExternalFacts(users[1..]);
      assert users == [users[0]] + users[1..];
    }
  }

  lemma {:induction false} FiltersCommute(users: seq<User>)
    ensures NonExternal(NonLease(users)) == NonLease(NonExternal(users))
  {
    if users != [] {
      FiltersCommute(users[1..]);
      var h := [users[0]];
      NonExternalAppend(if IsLease(users[0]) then [] else h, NonLease(users[1..]));
      NonLeaseAppend(if IsExternal(users[0]) then [] else h, NonExternal(users[1..]));
    }
  }

  lemma {:induction false} FindUserAppend(a: seq<User>, b: seq<User>, id: string)
    ensures FindUser(a + b, id) == if FindUser(a, id).Some? then FindUser(a, id) else FindUser(b, id)
  {
    if a == [] {
      assert a + b == b;
    } else {
      FindUserAppend(a[1..], b, id);
      assert (a + b)[1..] == a[1..] + b;
    }
  }

  lemma {:induction false} FindUserNone(users: seq<User>, id: string)
    ensures FindUser(users, id).None? <==> forall u :: u in users ==> u.id != id
    ensures FindUser(users, id).Some? ==> FindUser(users, id).value in users && FindUser(users, id).value.id == id
  {
    if users != [] {
      FindUserNone(users[1..], id);
      assert users == [users[0]] + users[1..];
    }
  }

  lemma {:induction false} FindUserAt(users: seq<User>, i: nat)
    requires i < |users| && forall j :: 0 <= j < i ==> users[j].id != users[i].id
    ensures FindUser(users, users[i].id) == Some(users[i])
  {
    if i > 0 {
      assert users[1..][i - 1] == users[i];
      assert forall j :: 0 <= j < i - 1 ==> users[1..][j] == users[j + 1];
      FindUserAt(users[1..], i - 1);
    }
  }

  lemma {:induction false} FindExternalAppend(a: seq<User>, b: seq<User>, id: string)
    ensures FindExternal(a + b, id) == if FindExternal(a, id).Some? then FindExternal(a, id) else FindExternal(b, id)
  {
    if a == [] {
      assert a + b == b;
    } else {
      FindExternalAppend(a[1..], b, id);
      assert (a + b)[1..] == a[1..] + b;
    }
  }

  lemma {:induction false} FindExternalNone(users: seq<User>, id: string)
    requires forall u :: u in users ==> !IsExternal(u)
    ensures FindExternal(users, id).None?
  {
    if users != [] { FindExternalNone(users[1..], id); }
  }

  lemma {:induction false} FindExternalAt(users: seq<User>, i: nat)
    requires i < |users| && IsExternal(users[i]) && forall j :: 0 <= j < i ==> users[j].id != users[i].id
    ensures FindExternal(users, users[i].id) == Some(users[i])
  {
    if i > 0 {
      assert users[1..][i - 1] == users[i];
      assert forall j :: 0 <= j < i - 1 ==> users[1..][j] == users[j + 1];
      FindExternalAt(users[1..], i - 1);
    }
  }

  lemma {:induction false} FindExternalIgnoresLeases(users: seq<User>, id: string)
    ensures FindExternal(NonLease(users), id) == FindExternal(users, id)
  {
    if users != [] {
      FindExternalIgnoresLeases(users[1..], id);
      OwnersDisjoint(users[0]);
      FindExternalAppend(if IsLease(users[0]) then [] else [users[0]], NonLease(users[1..]), id);
    }
  }

  lemma {:induction false} FindExternalFacts(users: seq<User>, id: string)
    ensures FindExternal(users, id).Some? ==> FindExternal(users, id).value.id == id
  {
    if users != [] { FindExternalFacts(users[1..], id); }
  }

  // ------------------------------------------------- accepted lease input

  /** Slots whose user the lease writer recognises as its own on the next pass. */
  predicate NativeOrLegacy(s: LeaseSlotInput)
  {
    s.cls.None? || s.cls.value == Native
  }

  ghost predicate AllNativeOrLegacy(slots: seq<LeaseSlotInput>)
  {
    forall i :: 0 <= i < |slots| ==> NativeOrLegacy(slots[i])
  }

  lemma {:induction false} AuthorizationIndex(slots: seq<LeaseSlotInput>, i: nat) returns (k: nat)
    requires i < |slots| && HasMetadata(slots[i])
    ensures k < |AuthorizationsOf(slots)| && AuthorizationsOf(slots)[k] == AuthorizationOf(slots[i])
    ensures k == |AuthorizationsOf(slots[..i])|
  {
    var last := |slots| - 1;
    if i == last {
      k := |AuthorizationsOf(slots[..last])|;
    } else {
      k := AuthorizationIndex(slots[..last], i);
      assert slots[..last][..i] == slots[..i];
    }
  }

  lemma {:induction false} AuthorizationsGrow(slots: seq<LeaseSlotInput>, i: nat, j: nat)
    requires i < j <= |slots| && HasMetadata(slots[i])
    ensures |AuthorizationsOf(slots[..i])| < |AuthorizationsOf(slots[..j])|
    decreases j
  {
    assert slots[..j][..j - 1] == slots[..j - 1];
    if i < j - 1 { AuthorizationsGrow(slots, i, j - 1); }
  }

  /** Accepted slots have distinct user ids. */
  lemma SlotIdsDistinct(slots: seq<LeaseSlotInput>, i: nat, j: nat)
    requires SlotsOk(slots) && ValidSet(AuthorizationsOf(slots)) && i < j < |slots|
    ensures SlotUserId(slots[i]) != SlotUserId(slots[j])
  {
    SlotItemOk(slots, i);
    SlotItemOk(slots, j);
    if HasMetadata(slots[i]) && HasMetadata(slots[j]) {
      var a := AuthorizationIndex(slots, i);
      var b := AuthorizationIndex(slots, j);
      AuthorizationsGrow(slots, i, j);
    } else if !HasMetadata(slots[i]) && !HasMetadata(slots[j]) {
      if SlotUserId(slots[i]) == SlotUserId(slots[j]) { LeaseUserIdInjective(slots[i].slot, slots[j].slot); }
    } else {
      assert SlotUserId(slots[i])[0] != SlotUserId(slots[j])[0];
    }
  }

  lemma SlotItemOk(slots: seq<LeaseSlotInput>, i: nat)
    requires SlotsOk(slots) && ValidSet(AuthorizationsOf(slots)) && i < |slots|
    ensures HasMetadata(slots[i]) ==> ItemOk(AuthorizationOf(slots[i])) && "cred_" <= SlotUserId(slots[i])
    ensures !HasMetadata(slots[i]) ==> MetadataCount(slots[i]) == 0
  {
    if HasMetadata(slots[i]) {
      var k := AuthorizationIndex(slots, i);
    }
  }

  /** The written order of an accepted pool: the same slots, no slot twice. */
  lemma WrittenOrder(slots: seq<LeaseSlotInput>) returns (t: seq<LeaseSlotInput>)
    requires SlotsOk(slots)
    ensures t == SortBy(InputInOrder, slots) && NoDuplicates(t) && SlotsInRange(slots) && SlotsInRange(t)
    ensures forall x :: x in t <==> x in slots
  {
    t := SortBy(InputInOrder, slots);
    assert NoDuplicates(slots);
    SortKeepsNoDuplicates(InputInOrder, slots);
    SortKeepsMembers(InputInOrder, slots);
    SortedInRange(slots);
  }

  lemma WrittenIdsDistinct(slots: seq<LeaseSlotInput>, t: seq<LeaseSlotInput>, i: nat, j: nat)
    requires SlotsOk(slots) && ValidSet(AuthorizationsOf(slots))
    requires NoDuplicates(t) && (forall x :: x in t <==> x in slots) && SlotsInRange(t)
    requires i < |t| && j < |t| && i != j
    ensures SlotUserId(t[i]) != SlotUserId(t[j])
  {
    assert t[i] in t && t[j] in t;
    var a :| 0 <= a < |slots| && slots[a] == t[i];
    var b :| 0 <= b < |slots| && slots[b] == t[j];
    assert a != b by { if i < j { assert t[i] != t[j]; } else { assert t[j] != t[i]; } }
    if a < b { SlotIdsDistinct(slots, a, b); } else { SlotIdsDistinct(slots, b, a); }
  }

  lemma LeaseUserFacts(users: seq<User>, s: LeaseSlotInput, now: int, token: string -> string)
    requires s.slot < MAX_SLOTS
    ensures var u := LeaseUser(users, s, now, token); u.id == SlotUserId(s) && u.vlessUuid == Lower(s.vlessUuid)
  {
    FindUserNone(users, SlotUserId(s));
  }

  /** Who owns a written slot user afterwards. */
  lemma LeaseUserOwner(slots: seq<LeaseSlotInput>, s: LeaseSlotInput, users: seq<User>,
                       now: int, token: string -> string)
    requires SlotsOk(slots) && ValidSet(AuthorizationsOf(slots)) && s in slots && s.slot < MAX_SLOTS
    ensures var u := LeaseUser(users, s, now, token);
            if NativeOrLegacy(s) then IsLease(u) && !IsExternal(u) else IsExternal(u) && !IsLease(u)
  {
    var i :| 0 <= i < |slots| && slots[i] == s;
    SlotItemOk(slots, i);
    LeaseUserFacts(users, s, now, token);
    OwnersDisjoint(LeaseUser(users, s, now, token));
  }

  // --------------------------------------------------- lease idempotence

  /**
   The lease writer leaves every user of another owner where it was, and adds
   to them if and only if some slot is of the compatibility class.
   */
  lemma LeaseCarriesOthers(users: seq<User>, slots: seq<LeaseSlotInput>, now: int, token: string -> string)
    requires LeaseAccepts(users, slots)
    ensures SlotsInRange(slots)
    ensures var next := LeaseApplied(users, slots, now, token);
            && NonLease(users) <= next && NonLease(users) <= NonLease(next)
            && (NonLease(next) == NonLease(users) <==> AllNativeOrLegacy(slots))
  {
    var t := WrittenOrder(slots);
    var built := LeaseUsers(users, t, now, token);
    NonLeaseAppend(NonLease(users), built);
    NonLeaseTwice(users);
    if AllNativeOrLegacy(slots) {
      BuiltAllLease(users, slots, t, now, token);
      NonLeaseFacts(built);
    } else {
      var u := BuiltForeign(users, slots, t, now, token);
      NonLeaseFacts(built);
      assert u in NonLease(built);
    }
  }

  lemma NonLeaseTwice(users: seq<User>)
    ensures NonLease(NonLease(users)) == NonLease(users)
  {
    NonLeaseFacts(users);
    NonLeaseFacts(NonLease(users));
  }

  lemma BuiltAllLease(users: seq<User>, slots: seq<LeaseSlotInput>, t: seq<LeaseSlotInput>,
                      now: int, token: string -> string)
    requires SlotsOk(slots) && ValidSet(AuthorizationsOf(slots)) && AllNativeOrLegacy(slots)
    requires (forall x :: x in t <==> x in slots) && SlotsInRange(t)
    ensures forall u :: u in LeaseUsers(users, t, now, token) ==> IsLease(u) && !IsExternal(u)
  {
    var built := LeaseUsers(users, t, now, token);
    forall u | u in built ensures IsLease(u) && !IsExternal(u) {
      var i :| 0 <= i < |built| && built[i] == u;
      assert t[i] in t;
      LeaseUserOwner(slots, t[i], users, now, token);
    }
  }

  /** A compatibility slot's user: written by the lease writer, owned by the external one. */
  lemma BuiltForeign(users: seq<User>, slots: seq<LeaseSlotInput>, t: seq<LeaseSlotInput>,
                     now: int, token: string -> string) returns (u: User)
    requires SlotsOk(slots) && ValidSet(AuthorizationsOf(slots)) && !AllNativeOrLegacy(slots)
    requires (forall x :: x in t <==> x in slots) && SlotsInRange(t)
    ensures u in LeaseUsers(users, t, now, token) && IsExternal(u) && !IsLease(u)
    ensures exists i :: 0 <= i < |slots| && u.vlessUuid == Lower(slots[i].vlessUuid)
  {
    var i :| 0 <= i < |slots| && !NativeOrLegacy(slots[i]);
    assert slots[i] in t;
    var k :| 0 <= k < |t| && t[k] == slots[i];
    u := LeaseUsers(users, t, now, token)[k];
    LeaseUserOwner(slots, slots[i], users, now, token);
    LeaseUserFacts(users, slots[i], now, token);
  }

  /** Where a user of another owner has the slot's id, the slot inherits from it what it inherits from the first. */
  predicate InheritsSame(users: seq<User>, s: LeaseSlotInput)
    requires s.slot < MAX_SLOTS
  {
    var first, foreign := FindUser(users, SlotUserId(s)), FindUser(NonLease(users), SlotUserId(s));
    first.Some? && foreign.Some? ==>
      first.value.tokenHash == foreign.value.tokenHash && first.value.carried == foreign.value.carried
  }

  lemma ForeignIdHasMetadata(slots: seq<LeaseSlotInput>, s: LeaseSlotInput, users: seq<User>)
    requires SlotsOk(slots) && ValidSet(AuthorizationsOf(slots)) && s in slots && s.slot < MAX_SLOTS
    requires FindUser(NonLease(users), SlotUserId(s)).Some?
    ensures s.validFrom.Some?
    ensures FindUser(users, SlotUserId(s)).Some? && FindUser(users, SlotUserId(s)).value.id == SlotUserId(s)
    ensures FindUser(NonLease(users), SlotUserId(s)).value.id == SlotUserId(s)
  {
    var i :| 0 <= i < |slots| && slots[i] == s;
    var id := SlotUserId(s);
    SlotItemOk(slots, i);
    NonLeaseFacts(users);
    FindUserNone(NonLease(users), id);
    FindUserNone(users, id);
    assert !HasMetadata(s) ==> "lease-" <= id;
    assert !IsLease(FindUser(NonLease(users), id).value);
  }

  lemma FoundAmongBuilt(users: seq<User>, slots: seq<LeaseSlotInput>, t: seq<LeaseSlotInput>, i: nat,
                        now: int, token: string -> string)
    requires SlotsOk(slots) && ValidSet(AuthorizationsOf(slots))
    requires NoDuplicates(t) && (forall x :: x in t <==> x in slots) && SlotsInRange(t) && i < |t|
    ensures var built := LeaseUsers(users, t, now, token);
            FindUser(built, SlotUserId(t[i])) == Some(built[i])
  {
    var built := LeaseUsers(users, t, now, token);
    forall j | 0 <= j < |t| ensures built[j].id == SlotUserId(t[j]) { LeaseUserFacts(users, t[j], now, token); }
    forall j | 0 <= j < i ensures built[j].id != built[i].id { WrittenIdsDistinct(slots, t, j, i); }
    FindUserAt(built, i);
  }

  /** Slot by slot: rebuilt over its own result a slot's user is the same if and only if it inherits the same. */
  lemma RebuiltIff(users: seq<User>, slots: seq<LeaseSlotInput>, t: seq<LeaseSlotInput>, i: nat,
                   now: int, token: string -> string, now2: int, token2: string -> string)
    requires SlotsOk(slots) && ValidSet(AuthorizationsOf(slots))
    requires NoDuplicates(t) && (forall x :: x in t <==> x in slots) && SlotsInRange(t) && i < |t|
    ensures var built := LeaseUsers(users, t, now, token);
            LeaseUser(NonLease(users) + built, t[i], now2, token2) == built[i] <==> InheritsSame(users, t[i])
  {
    var built := LeaseUsers(users, t, now, token);
    var id := SlotUserId(t[i]);
    assert t[i] in t;
    FindUserAppend(NonLease(users), built, id);
    if FindUser(NonLease(users), id).Some? {
      ForeignIdHasMetadata(slots, t[i], users);
    } else {
      FoundAmongBuilt(users, slots, t, i, now, token);
    }
  }

  lemma SecondPassAccepted(users: seq<User>, slots: seq<LeaseSlotInput>, now: int, token: string -> string)
    requires LeaseAccepts(users, slots) && SlotsInRange(slots)
    ensures LeaseAccepts(LeaseApplied(users, slots, now, token), slots) <==> AllNativeOrLegacy(slots)
  {
    var next := LeaseApplied(users, slots, now, token);
    LeaseCarriesOthers(users, slots, now, token);
    NonLeaseFacts(users);
    NonLeaseFacts(next);
    if AllNativeOrLegacy(slots) {
      forall u, i | u in next && !IsLease(u) && 0 <= i < |slots|
        ensures Lower(u.vlessUuid) != Lower(slots[i].vlessUuid)
      {
        assert u in NonLease(next);
      }
    } else {
      var t := WrittenOrder(slots);
      var u := BuiltForeign(users, slots, t, now, token);
      var i :| 0 <= i < |slots| && u.vlessUuid == Lower(slots[i].vlessUuid);
      LowerTwice(slots[i].vlessUuid);
      assert u in next;
    }
  }

  lemma SecondPassSame(users: seq<User>, slots: seq<LeaseSlotInput>,
                       now: int, token: string -> string, now2: int, token2: string -> string)
    requires LeaseAccepts(users, slots) && SlotsInRange(slots) && AllNativeOrLegacy(slots)
    ensures var next := LeaseApplied(users, slots, now, token);
            (LeaseApplied(next, slots, now2, token2) == next
             <==> forall i :: 0 <= i < |slots| ==> InheritsSame(users, slots[i]))
  {
    var next := LeaseApplied(users, slots, now, token);
    var t := WrittenOrder(slots);
    var built, rebuilt := LeaseUsers(users, t, now, token), LeaseUsers(next, t, now2, token2);
    LeaseCarriesOthers(users, slots, now, token);
    assert LeaseApplied(next, slots, now2, token2) == NonLease(users) + rebuilt;
    SameTail(NonLease(users), rebuilt, built);
    forall i | 0 <= i < |t| ensures rebuilt[i] == built[i] <==> InheritsSame(users, t[i]) {
      RebuiltIff(users, slots, t, i, now, token, now2, token2);
    }
    if rebuilt == built {
      forall i | 0 <= i < |slots| ensures InheritsSame(users, slots[i]) {
        assert slots[i] in t;
        var k :| 0 <= k < |t| && t[k] == slots[i];
        assert rebuilt[k] == built[k];
      }
    }
    if forall i :: 0 <= i < |slots| ==> InheritsSame(users, slots[i]) {
      forall i | 0 <= i < |t| ensures rebuilt[i] == built[i] {
        assert t[i] in t;
        var k :| 0 <= k < |slots| && slots[k] == t[i];
      }
    }
  }

  lemma SameTail(a: seq<User>, b: seq<User>, c: seq<User>)
    ensures a + b == a + c <==> b == c
  {
    if a + b == a + c { assert (a + b)[|a|..] == b && (a + c)[|a|..] == c; }
  }

  /**
   Applying an accepted pool again succeeds and changes nothing if and only if
   every slot is native or legacy, and none shares its id with a user of
   another owner from whom it would inherit something else. A compatibility
   slot makes the second pass collide with the user the first pass wrote.
   */
  lemma LeaseIdempotentIff(users: seq<User>, slots: seq<LeaseSlotInput>,
                           now: int, token: string -> string, now2: int, token2: string -> string)
    requires LeaseAccepts(users, slots) && SlotsInRange(slots)
    ensures var next := LeaseApplied(users, slots, now, token);
            (LeaseAccepts(next, slots) && LeaseApplied(next, slots, now2, token2) == next
             <==> AllNativeOrLegacy(slots) && forall i :: 0 <= i < |slots| ==> InheritsSame(users, slots[i]))
  {
    SecondPassAccepted(users, slots, now, token);
    if AllNativeOrLegacy(slots) { SecondPassSame(users, slots, now, token, now2, token2); }
  }

  // ------------------------------------------------ external idempotence

  lemma ExternalOrder(auths: seq<Authorization>) returns (d: seq<Authorization>)
    requires DistinctIds(auths)
    ensures d == SortBy(CredentialInOrder, auths) && NoDuplicates(d) && DistinctIds(d)
    ensures forall x :: x in d <==> x in auths
  {
    d := SortBy(CredentialInOrder, auths);
    assert NoDuplicates(auths);
    SortKeepsNoDuplicates(CredentialInOrder, auths);
    SortKeepsMembers(CredentialInOrder, auths);
    forall i, j | 0 <= i < j < |d| ensures d[i].credentialId != d[j].credentialId {
      assert d[i] in d && d[j] in d && d[i] != d[j];
    }
  }

  lemma ExternalUserFacts(users: seq<User>, a: Authorization, now: int, token: string -> string)
    requires ItemOk(a) && a.cls == Compatibility
    ensures var u := ExternalUser(users, a, now, token); u.id == a.credentialId && IsExternal(u) && !IsLease(u)
  {
    FindExternalFacts(users, a.credentialId);
    OwnersDisjoint(ExternalUser(users, a, now, token));
  }

  lemma ExternalBuiltFacts(users: seq<User>, auths: seq<Authorization>, d: seq<Authorization>,
                           now: int, token: string -> string)
    requires ItemsOk(auths) && AllCompatibility(auths) && forall x :: x in d <==> x in auths
    ensures var built := ExternalUsers(users, d, now, token);
            && (forall u :: u in built ==> IsExternal(u) && !IsLease(u))
            && forall i :: 0 <= i < |d| ==> built[i].id == d[i].credentialId && IsExternal(built[i])
  {
    var built := ExternalUsers(users, d, now, token);
    forall i | 0 <= i < |d| ensures built[i].id == d[i].credentialId && IsExternal(built[i]) && !IsLease(built[i]) {
      assert d[i] in d;
      ExternalUserFacts(users, d[i], now, token);
    }
  }

  lemma ExternalCarriesOthers(users: seq<User>, auths: seq<Authorization>, now: int, token: string -> string)
    requires ExternalAccepts(users, auths)
    ensures NonExternal(ExternalApplied(users, auths, now, token)) == NonExternal(users)
  {
    var d := ExternalOrder(auths);
    var built := ExternalUsers(users, d, now, token);
    ExternalBuiltFacts(users, auths, d, now, token);
    NonExternalAppend(NonExternal(users), built);
    NonExternalFacts(users);
    NonExternalFacts(NonExternal(users));
    NonExternalFacts(built);
  }

  /** Applying an accepted external set again is accepted and changes nothing. */
  lemma ExternalIdempotent(users: seq<User>, auths: seq<Authorization>,
                           now: int, token: string -> string, now2: int, token2: string -> string)
    requires ExternalAccepts(users, auths)
    ensures var next := ExternalApplied(users, auths, now, token);
            ExternalAccepts(next, auths) && ExternalApplied(next, auths, now2, token2) == next
  {
    var next := ExternalApplied(users, auths, now, token);
    ExternalCarriesOthers(users, auths, now, token);
    NonExternalFacts(users);
    NonExternalFacts(next);
    forall u | u in next && !IsExternal(u) ensures u in users {
      assert u in NonExternal(next);
    }
    var d := ExternalOrder(auths);
    var built := ExternalUsers(users, d, now, token);
    ExternalBuiltFacts(users, auths, d, now, token);
    forall i | 0 <= i < |d| ensures ExternalUser(next, d[i], now2, token2) == built[i] {
      FindExternalNone(NonExternal(users), d[i].credentialId);
      FindExternalAppend(NonExternal(users), built, d[i].credentialId);
      FindExternalAt(built, i);
    }
    assert ExternalUsers(next, d, now2, token2) == built;
  }

  // -------------------------------------------------------- either order

  /** The slot finds the same retained fields whether or not external users are in the list. */
  ghost predicate KeepsSame(users: seq<User>, s: LeaseSlotInput, now: int, token: string -> string)
    requires s.slot < MAX_SLOTS
  {
    var a := LeaseTemplate(users, SlotUserId(s), now, token);
    var b := LeaseTemplate(NonExternal(users), SlotUserId(s), now, token);
    a.tokenHash == b.tokenHash && a.carried == b.carried
  }

  lemma {:induction false} FindUserIgnoresExternal(users: seq<User>, id: string)
    requires !("cred_" <= id)
    ensures FindUser(NonExternal(users), id) == FindUser(users, id)
  {
    if users != [] {
      FindUserIgnoresExternal(users[1..], id);
      FindUserAppend(if IsExternal(users[0]) then [] else [users[0]], NonExternal(users[1..]), id);
    }
  }

  lemma SameUserIff(slots: seq<LeaseSlotInput>, s: LeaseSlotInput, users: seq<User>, now: int, token: string -> string)
    requires SlotsOk(slots) && ValidSet(AuthorizationsOf(slots)) && s in slots && s.slot < MAX_SLOTS
    ensures LeaseUser(users, s, now, token) == LeaseUser(NonExternal(users), s, now, token)
       <==> KeepsSame(users, s, now, token)
  {
    var i :| 0 <= i < |slots| && slots[i] == s;
    SlotItemOk(slots, i);
    var id := SlotUserId(s);
    FindUserNone(users, id);
    FindUserNone(NonExternal(users), id);
    if !HasMetadata(s) {
      assert id[0] == 'l';
      FindUserIgnoresExternal(users, id);
    }
  }

  /** The lease users written after the external writer has run. */
  lemma LeaseUsersAfterExternal(users: seq<User>, slots: seq<LeaseSlotInput>, auths: seq<Authorization>,
                                t: seq<LeaseSlotInput>, now: int, token: string -> string)
    requires LeaseAccepts(users, slots) && AllNativeOrLegacy(slots) && SlotsInRange(slots)
    requires t == SortBy(InputInOrder, slots) && SlotsInRange(t)
    requires ExternalAccepts(users, auths) && ExternalAccepts(LeaseApplied(users, slots, now, token), auths)
    ensures LeaseUsers(ExternalApplied(users, auths, now, token), t, now, token)
         == LeaseUsers(NonExternal(users), t, now, token)
  {
    var t' := WrittenOrder(slots);
    var d := ExternalOrder(auths);
    var built := ExternalUsers(users, d, now, token);
    ExternalBuiltFacts(users, auths, d, now, token);
    forall i | 0 <= i < |t|
      ensures LeaseUser(NonExternal(users) + built, t[i], now, token) == LeaseUser(NonExternal(users), t[i], now, token)
    {
      var id := SlotUserId(t[i]);
      forall u | u in built ensures u.id != id {
        var k :| 0 <= k < |built| && built[k] == u;
        assert d[k] in d;
        SlotIdNotExternal(users, slots, auths, t, i, d[k], now, token);
      }
      FindUserNone(built, id);
      FindUserAppend(NonExternal(users), built, id);
    }
  }

  /** No authorization the external writer accepts after the lease writer has a slot's id. */
  lemma SlotIdNotExternal(users: seq<User>, slots: seq<LeaseSlotInput>, auths: seq<Authorization>,
                          t: seq<LeaseSlotInput>, i: nat, a: Authorization, now: int, token: string -> string)
    requires LeaseAccepts(users, slots) && AllNativeOrLegacy(slots) && SlotsInRange(slots)
    requires t == SortBy(InputInOrder, slots) && SlotsInRange(t) && i < |t|
    requires ExternalAccepts(LeaseApplied(users, slots, now, token), auths) && a in auths
    ensures a.credentialId != SlotUserId(t[i])
  {
    var t' := WrittenOrder(slots);
    assert t[i] in t;
    var mine := LeaseUser(users, t[i], now, token);
    LeaseUserOwner(slots, t[i], users, now, token);
    LeaseUserFacts(users, t[i], now, token);
    assert mine == LeaseUsers(users, t, now, token)[i];
    assert mine in LeaseApplied(users, slots, now, token);
    var j :| 0 <= j < |auths| && auths[j] == a;
    assert mine.id != auths[j].credentialId;
  }

  /** The list when the external writer runs second. */
  lemma LeaseThenExternal(users: seq<User>, slots: seq<LeaseSlotInput>, auths: seq<Authorization>,
                          t: seq<LeaseSlotInput>, d: seq<Authorization>, now: int, token: string -> string)
    requires LeaseAccepts(users, slots) && AllNativeOrLegacy(slots) && SlotsInRange(slots)
    requires t == SortBy(InputInOrder, slots) && SlotsInRange(t) && d == SortBy(CredentialInOrder, auths)
    ensures ExternalApplied(LeaseApplied(users, slots, now, token), auths, now, token)
         == NonExternal(NonLease(users)) + LeaseUsers(users, t, now, token) + ExternalUsers(users, d, now, token)
  {
    var t' := WrittenOrder(slots);
    var mine := LeaseUsers(users, t, now, token);
    var next := NonLease(users) + mine;
    BuiltAllLease(users, slots, t, now, token);
    NonExternalAppend(NonLease(users), mine);
    NonExternalFacts(mine);
    forall i | 0 <= i < |d| ensures ExternalUser(next, d[i], now, token) == ExternalUser(users, d[i], now, token) {
      FindExternalAppend(NonLease(users), mine, d[i].credentialId);
      FindExternalNone(mine, d[i].credentialId);
      FindExternalIgnoresLeases(users, d[i].credentialId);
    }
    assert ExternalUsers(next, d, now, token) == ExternalUsers(users, d, now, token);
  }

  lemma ExternalThenLease(users: seq<User>, slots: seq<LeaseSlotInput>, auths: seq<Authorization>,
                          t: seq<LeaseSlotInput>, d: seq<Authorization>, now: int, token: string -> string)
    requires ExternalAccepts(users, auths) && SlotsInRange(slots)
    requires t == SortBy(InputInOrder, slots) && SlotsInRange(t) && d == SortBy(CredentialInOrder, auths)
    ensures LeaseApplied(ExternalApplied(users, auths, now, token), slots, now, token)
         == NonLease(NonExternal(users)) + ExternalUsers(users, d, now, token)
          + LeaseUsers(ExternalApplied(users, auths, now, token), t, now, token)
  {
    var d' := ExternalOrder(auths);
    var theirs := ExternalUsers(users, d, now, token);
    ExternalBuiltFacts(users, auths, d, now, token);
    NonLeaseAppend(NonExternal(users), theirs);
    NonLeaseFacts(theirs);
  }

  lemma SameMultisetSameUsers(slots: seq<LeaseSlotInput>, t: seq<LeaseSlotInput>, a: seq<User>, b: seq<User>)
    requires SlotsOk(slots) && ValidSet(AuthorizationsOf(slots))
    requires NoDuplicates(t) && (forall x :: x in t <==> x in slots) && SlotsInRange(t)
    requires |a| == |t| == |b| && forall i :: 0 <= i < |t| ==> a[i].id == b[i].id == SlotUserId(t[i])
    ensures multiset(a) == multiset(b) <==> a == b
  {
    if multiset(a) == multiset(b) {
      forall i | 0 <= i < |a| ensures a[i] == b[i] {
        assert a[i] in multiset(b);
        var j :| 0 <= j < |b| && b[j] == a[i];
        if j != i { WrittenIdsDistinct(slots, t, i, j); }
      }
    }
  }

  /** Lease users built with and without the external users agree exactly when every slot keeps the same. */
  lemma SameBuiltIff(users: seq<User>, slots: seq<LeaseSlotInput>, t: seq<LeaseSlotInput>,
                     now: int, token: string -> string)
    requires SlotsOk(slots) && ValidSet(AuthorizationsOf(slots)) && SlotsInRange(slots)
    requires NoDuplicates(t) && (forall x :: x in t <==> x in slots) && SlotsInRange(t)
    ensures multiset(LeaseUsers(users, t, now, token)) == multiset(LeaseUsers(NonExternal(users), t, now, token))
       <==> forall i :: 0 <= i < |slots| ==> KeepsSame(users, slots[i], now, token)
  {
    var a, b := LeaseUsers(users, t, now, token), LeaseUsers(NonExternal(users), t, now, token);
    forall i | 0 <= i < |t| ensures a[i].id == b[i].id == SlotUserId(t[i]) {
      LeaseUserFacts(users, t[i], now, token);
      LeaseUserFacts(NonExternal(users), t[i], now, token);
    }
    SameMultisetSameUsers(slots, t, a, b);
    forall i | 0 <= i < |t| ensures a[i] == b[i] <==> KeepsSame(users, t[i], now, token) {
      assert t[i] in t;
      SameUserIff(slots, t[i], users, now, token);
    }
    if a == b {
      forall i | 0 <= i < |slots| ensures KeepsSame(users, slots[i], now, token) {
        assert slots[i] in t;
        var k :| 0 <= k < |t| && t[k] == slots[i];
        assert a[k] == b[k];
      }
    }
    if forall i :: 0 <= i < |slots| ==> KeepsSame(users, slots[i], now, token) {
      forall i | 0 <= i < |t| ensures a[i] == b[i] {
        assert t[i] in t;
        var k :| 0 <= k < |slots| && slots[k] == t[i];
      }
      assert a == b;
    }
  }

  /**
   Where both orders succeed they leave the same users up to list order, if
   and only if every slot is native or legacy and none takes retained fields
   from an external user. The user of a compatibility slot survives only if
   the lease writer comes last.
   */
  lemma WritersCommuteIff(users: seq<User>, slots: seq<LeaseSlotInput>, auths: seq<Authorization>,
                          now: int, token: string -> string)
    requires LeaseAccepts(users, slots) && SlotsInRange(slots) && ExternalAccepts(users, auths)
    requires ExternalAccepts(LeaseApplied(users, slots, now, token), auths)
    requires LeaseAccepts(ExternalApplied(users, auths, now, token), slots)
    ensures multiset(ExternalApplied(LeaseApplied(users, slots, now, token), auths, now, token))
         == multiset(LeaseApplied(ExternalApplied(users, auths, now, token), slots, now, token))
       <==> (AllNativeOrLegacy(slots) && forall i :: 0 <= i < |slots| ==> KeepsSame(users, slots[i], now, token))
  {
    if AllNativeOrLegacy(slots) {
      NativeWritersCommuteIff(users, slots, auths, now, token);
    } else {
      CompatibilitySlotDropped(users, slots, auths, now, token);
      SizesDiffer(ExternalApplied(LeaseApplied(users, slots, now, token), auths, now, token),
                  LeaseApplied(ExternalApplied(users, auths, now, token), slots, now, token));
    }
  }

  lemma SizesDiffer(a: seq<User>, b: seq<User>)
    requires |a| != |b|
    ensures multiset(a) != multiset(b)
  {
    assert |multiset(a)| == |a| && |multiset(b)| == |b|;
  }

  lemma {:induction false} NonExternalShorter(users: seq<User>)
    ensures |NonExternal(users)| <= |users|
    ensures (exists u :: u in users && IsExternal(u)) ==> |NonExternal(users)| < |users|
  {
    if users != [] {
      NonExternalShorter(users[1..]);
      assert users == [users[0]] + users[1..];
    }
  }

  lemma CompatibilitySlotDropped(users: seq<User>, slots: seq<LeaseSlotInput>, auths: seq<Authorization>,
                                 now: int, token: string -> string)
    requires LeaseAccepts(users, slots) && SlotsInRange(slots) && ExternalAccepts(users, auths)
    requires !AllNativeOrLegacy(slots)
    ensures |ExternalApplied(LeaseApplied(users, slots, now, token), auths, now, token)|
          < |LeaseApplied(ExternalApplied(users, auths, now, token), slots, now, token)|
  {
    var t := WrittenOrder(slots);
    var d := ExternalOrder(auths);
    var mine := LeaseUsers(users, t, now, token);
    var u := BuiltForeign(users, slots, t, now, token);
    NonExternalAppend(NonLease(users), mine);
    NonExternalShorter(mine);
    ExternalThenLease(users, slots, auths, t, d, now, token);
    FiltersCommute(users);
  }

  lemma NativeWritersCommuteIff(users: seq<User>, slots: seq<LeaseSlotInput>, auths: seq<Authorization>,
                                now: int, token: string -> string)
    requires LeaseAccepts(users, slots) && AllNativeOrLegacy(slots) && SlotsInRange(slots)
    requires ExternalAccepts(users, auths)
    requires ExternalAccepts(LeaseApplied(users, slots, now, token), auths)
    ensures multiset(ExternalApplied(LeaseApplied(users, slots, now, token), auths, now, token))
         == multiset(LeaseApplied(ExternalApplied(users, auths, now, token), slots, now, token))
       <==> forall i :: 0 <= i < |slots| ==> KeepsSame(users, slots[i], now, token)
  {
    var t := WrittenOrder(slots);
    var d := ExternalOrder(auths);
    LeaseThenExternal(users, slots, auths, t, d, now, token);
    ExternalThenLease(users, slots, auths, t, d, now, token);
    LeaseUsersAfterExternal(users, slots, auths, t, now, token);
    FiltersCommute(users);
    SameBuiltIff(users, slots, t, now, token);
    CancelCommon(Unowned(users), LeaseUsers(users, t, now, token), ExternalUsers(users, d, now, token),
                 LeaseUsers(NonExternal(users), t, now, token));
  }

  lemma CancelCommon(others: seq<User>, a: seq<User>, theirs: seq<User>, b: seq<User>)
    ensures multiset(others + a + theirs) == multiset(others + theirs + b) <==> multiset(a) == multiset(b)
  {
    var m := multiset(others) + multiset(theirs);
    assert multiset(others + a + theirs) == m + multiset(a);
    assert multiset(others + theirs + b) == m + multiset(b);
    if m + multiset(a) == m + multiset(b) {
      assert multiset(a) == (m + multiset(a)) - m;
      assert multiset(b) == (m + multiset(b)) - m;
    }
  }

  // --------------------------------------------------- any interleaving

  ghost predicate UuidsDistinct(users: seq<User>)
  {
    forall i, j :: 0 <= i < j < |users| ==>
      Lower(users[i].vlessUuid) == "" || Lower(users[i].vlessUuid) != Lower(users[j].vlessUuid)
  }

  ghost predicate UuidsApart(a: seq<User>, b: seq<User>)
  {
    forall u, v :: u in a && v in b ==> Lower(u.vlessUuid) == "" || Lower(u.vlessUuid) != Lower(v.vlessUuid)
  }

  lemma UuidsJoin(a: seq<User>, b: seq<User>)
    requires UuidsDistinct(a) && UuidsDistinct(b) && UuidsApart(a, b)
    ensures UuidsDistinct(a + b)
  {}

  lemma HeadApart(users: seq<User>, keep: bool, rest: seq<User>)
    requires users != [] && UuidsDistinct(users) && UuidsDistinct(rest)
    requires forall u :: u in rest ==> u in users[1..]
    ensures UuidsDistinct(KeepIf(keep, users[0]) + rest)
  {
    forall u | u in rest
      ensures Lower(users[0].vlessUuid) == "" || Lower(users[0].vlessUuid) != Lower(u.vlessUuid)
    {
      var k :| 0 <= k < |users[1..]| && users[1..][k] == u;
      assert users[k + 1] == u;
    }
    UuidsJoin(KeepIf(keep, users[0]), rest);
  }

  lemma {:induction false} NonLeaseKeepsDistinct(users: seq<User>)
    requires UuidsDistinct(users)
    ensures UuidsDistinct(NonLease(users))
  {
    if users != [] {
      assert forall i :: 0 <= i < |users[1..]| ==> users[1..][i] == users[i + 1];
      NonLeaseKeepsDistinct(users[1..]);
      NonLeaseFacts(users[1..]);
      HeadApart(users, !IsLease(users[0]), NonLease(users[1..]));
    }
  }

  lemma {:induction false} NonExternalKeepsDistinct(users: seq<User>)
    requires UuidsDistinct(users)
    ensures UuidsDistinct(NonExternal(users))
  {
    if users != [] {
      assert forall i :: 0 <= i < |users[1..]| ==> users[1..][i] == users[i + 1];
      NonExternalKeepsDistinct(users[1..]);
      NonExternalFacts(users[1..]);
      HeadApart(users, !IsExternal(users[0]), NonExternal(users[1..]));
    }
  }

  lemma LeaseKeepsDistinct(users: seq<User>, slots: seq<LeaseSlotInput>, now: int, token: string -> string)
    requires UuidsDistinct(users) && LeaseAccepts(users, slots) && SlotsInRange(slots)
    ensures UuidsDistinct(LeaseApplied(users, slots, now, token))
  {
    var t := WrittenOrder(slots);
    var built := LeaseUsers(users, t, now, token);
    NonLeaseKeepsDistinct(users);
    NonLeaseFacts(users);
    forall i | 0 <= i < |t| ensures Lower(built[i].vlessUuid) == Lower(t[i].vlessUuid) && t[i] in slots {
      assert t[i] in t;
      LeaseUserFacts(users, t[i], now, token);
      LowerTwice(t[i].vlessUuid);
    }
    forall i, j | 0 <= i < j < |built| ensures Lower(built[i].vlessUuid) != Lower(built[j].vlessUuid) {
      assert t[i] != t[j];
      var a :| 0 <= a < |slots| && slots[a] == t[i];
      var b :| 0 <= b < |slots| && slots[b] == t[j];
    }
    UuidsJoin(NonLease(users), built);
  }

  lemma ExternalKeepsDistinct(users: seq<User>, auths: seq<Authorization>, now: int, token: string -> string)
    requires UuidsDistinct(users) && ExternalAccepts(users, auths)
    ensures UuidsDistinct(ExternalApplied(users, auths, now, token))
  {
    var d := ExternalOrder(auths);
    var built := ExternalUsers(users, d, now, token);
    NonExternalKeepsDistinct(users);
    NonExternalFacts(users);
    forall i | 0 <= i < |d|
      ensures d[i] in auths
      ensures Lower(built[i].vlessUuid) == if d[i].vlessUuid.Some? then Lower(d[i].vlessUuid.value) else ""
    {
      assert d[i] in d;
      if d[i].vlessUuid.Some? { LowerTwice(d[i].vlessUuid.value); }
    }
    forall i, j | 0 <= i < j < |built|
      ensures Lower(built[i].vlessUuid) == "" || Lower(built[i].vlessUuid) != Lower(built[j].vlessUuid)
    {
      assert d[i] != d[j];
      var a :| 0 <= a < |auths| && auths[a] == d[i];
      var b :| 0 <= b < |auths| && auths[b] == d[j];
    }
    UuidsJoin(NonExternal(users), built);
  }

  datatype Write =
    | LeaseWrite(slots: seq<LeaseSlotInput>, at: int, token: string -> string)
    | ExternalWrite(auths: seq<Authorization>, at: int, token: string -> string)

  /** One writer's turn; a refused input leaves the list as it was. */
  ghost function AfterWrite(users: seq<User>, w: Write): seq<User>
  {
    match w
    case LeaseWrite(slots, at, token) =>
      if LeaseAccepts(users, slots) && SlotsInRange(slots) then LeaseApplied(users, slots, at, token) else users
    case ExternalWrite(auths, at, token) =>
      if ExternalAccepts(users, auths) then ExternalApplied(users, auths, at, token) else users
  }

  ghost function AfterWrites(users: seq<User>, ws: seq<Write>): seq<User>
    decreases |ws|
  {
    if ws == [] then users else AfterWrites(AfterWrite(users, ws[0]), ws[1..])
  }

  /** Users that belong to neither writer. */
  function Unowned(users: seq<User>): seq<User>
  {
    NonExternal(NonLease(users))
  }

  lemma {:induction false} AllOwned(users: seq<User>)
    requires forall u :: u in users ==> IsLease(u) || IsExternal(u)
    ensures Unowned(users) == []
  {
    NonLeaseFacts(users);
    NonExternalFacts(NonLease(users));
  }

  lemma WriteKeepsUnowned(users: seq<User>, w: Write)
    ensures Unowned(AfterWrite(users, w)) == Unowned(users)
  {
    match w
    case LeaseWrite(slots, at, token) =>
      if LeaseAccepts(users, slots) && SlotsInRange(slots) {
        var t := WrittenOrder(slots);
        var built := LeaseUsers(users, t, at, token);
        forall u | u in built ensures IsLease(u) || IsExternal(u) {
          var i :| 0 <= i < |built| && built[i] == u;
          assert t[i] in t;
          LeaseUserOwner(slots, t[i], users, at, token);
        }
        AllOwned(built);
        NonLeaseFacts(users);
        NonLeaseFacts(NonLease(users));
        NonLeaseAppend(NonLease(users), built);
        NonExternalAppend(NonLease(users), NonLease(built));
      }
    case ExternalWrite(auths, at, token) =>
      if ExternalAccepts(users, auths) {
        ExternalCarriesOthers(users, auths, at, token);
        FiltersCommute(users);
        FiltersCommute(ExternalApplied(users, auths, at, token));
      }
  }

  /**
   Over any interleaving of both writers, refused inputs included: unique
   non-empty uuids stay unique, and users of neither writer stay as they were,
   in order.
   */
  lemma {:induction false} AnyInterleaving(users: seq<User>, ws: seq<Write>)
    requires UuidsDistinct(users)
    ensures UuidsDistinct(AfterWrites(users, ws)) && Unowned(AfterWrites(users, ws)) == Unowned(users)
    decreases |ws|
  {
    if ws != [] {
      var next := AfterWrite(users, ws[0]);
      WriteKeepsUnowned(users, ws[0]);
      match ws[0] {
        case LeaseWrite(slots, at, token) =>
          if LeaseAccepts(users, slots) && SlotsInRange(slots) { LeaseKeepsDistinct(users, slots, at, token); }
        case ExternalWrite(auths, at, token) =>
          if ExternalAccepts(users, auths) { ExternalKeepsDistinct(users, auths, at, token); }
      }
      AnyInterleaving(next, ws[1..]);
    }
  }
}
