/**
 Two writers of one user list: the lease pool and the external
 authorizations, each replacing the users it owns and carrying every other
 user through (apps/admin/src/lease_pool.rs, apps/admin/src/external_authorization.rs).
 */
module UserStore {
  import opened Prelude
  import opened Authorizations

  const MAX_SLOTS := 4096

  /** Fields of a user record that neither writer ever sets on an existing user. */
  datatype Carried = Carried(exitPrincipal: bool, reservedProbe: bool, peers: map<string, string>, grants: seq<string>)

  datatype User = User(
    id: string, name: string, enabled: bool, vlessUuid: string, hysteria2Password: string,
    tokenHash: string, createdAt: int, expiresAt: Option<int>,
    visionOff: bool, googleHairpin: bool, carried: Carried)

  const NOTHING_CARRIED := Carried(false, false, map[], [])

  datatype LeaseSlotInput = LeaseSlotInput(
    slot: nat, vlessUuid: string, hysteria2Password: string, expiresAt: int,
    principalId: Option<string>, credentialId: Option<string>, cls: Option<CredentialClass>,
    validFrom: Option<int>, revoked: bool)

  datatype StoreError =
    | PoolTooLarge | SlotOutOfRangeOrDuplicate | MalformedCredential | NoExpiry | PartialMetadata
    | RevokedWithoutMetadata | BadAuthorizations(error: SetError) | NotCompatibility
    | DuplicateUuid | UuidCollision | IdCollision

  // ----------------------------------------------------------- ownership

  predicate IsLease(u: User)
  {
    "lease-" <= u.id || ("cred_" <= u.id && "native_" <= u.name)
  }

  predicate IsExternal(u: User)
  {
    "cred_" <= u.id && "ext_" <= u.name
  }

  lemma OwnersDisjoint(u: User)
    ensures !(IsLease(u) && IsExternal(u))
  {
    if "cred_" <= u.id { assert u.id[0] == 'c'; }
    if "ext_" <= u.name { assert u.name[0] == 'e'; }
  }

  function KeepIf(keep: bool, u: User): seq<User>
  {
    if keep then [u] else []
  }

  function NonLease(users: seq<User>): seq<User>
  {
    if users == [] then []
    else KeepIf(!IsLease(users[0]), users[0]) + NonLease(users[1..])
  }

  function NonExternal(users: seq<User>): seq<User>
  {
    if users == [] then []
    else KeepIf(!IsExternal(users[0]), users[0]) + NonExternal(users[1..])
  }

  // -------------------------------------------------------- lease writer

  function MetadataCount(s: LeaseSlotInput): nat
  {
    (if s.principalId.Some? then 1 else 0) + (if s.credentialId.Some? then 1 else 0)
    + (if s.cls.Some? then 1 else 0) + (if s.validFrom.Some? then 1 else 0)
  }

  predicate HasMetadata(s: LeaseSlotInput)
  {
    s.principalId.Some? && s.credentialId.Some? && s.cls.Some? && s.validFrom.Some?
  }

  predicate SlotShapeOk(s: LeaseSlotInput)
  {
    && s.slot < MAX_SLOTS
    && ValidUuid(s.vlessUuid) && ValidPassword(s.hysteria2Password) && s.expiresAt > 0
    && (MetadataCount(s) == 0 || MetadataCount(s) == 4)
    && (s.revoked ==> HasMetadata(s))
  }

  function AuthorizationOf(s: LeaseSlotInput): Authorization
    requires HasMetadata(s)
  {
    Authorization(s.principalId.value, s.credentialId.value, s.cls.value, s.validFrom.value, s.expiresAt,
                  s.revoked, Some(s.vlessUuid), Some(s.hysteria2Password))
  }

  function AuthorizationsOf(slots: seq<LeaseSlotInput>): seq<Authorization>
  {
    if slots == [] then []
    else
      var last := slots[|slots| - 1];
      AuthorizationsOf(slots[..|slots| - 1]) + (if HasMetadata(last) then [AuthorizationOf(last)] else [])
  }

  predicate InputInOrder(a: LeaseSlotInput, b: LeaseSlotInput)
  {
    a.slot <= b.slot
  }

  ghost predicate SlotsOk(slots: seq<LeaseSlotInput>)
  {
    && (forall i :: 0 <= i < |slots| ==> SlotShapeOk(slots[i]))
    && (forall i, j :: 0 <= i < j < |slots| ==> slots[i].slot != slots[j].slot)
  }

  ghost predicate SlotUuidsDistinct(slots: seq<LeaseSlotInput>)
  {
    forall i, j :: 0 <= i < j < |slots| ==> Lower(slots[i].vlessUuid) != Lower(slots[j].vlessUuid)
  }

  ghost predicate NoLeaseCollision(users: seq<User>, slots: seq<LeaseSlotInput>)
  {
    forall u, i :: u in users && !IsLease(u) && 0 <= i < |slots| ==> Lower(u.vlessUuid) != Lower(slots[i].vlessUuid)
  }

  /** Exactly the pools the writer takes over this user list. */
  ghost predicate LeaseAccepts(users: seq<User>, slots: seq<LeaseSlotInput>)
  {
    && |slots| <= MAX_SLOTS
    && SlotsOk(slots)
    && ValidSet(AuthorizationsOf(slots))
    && SlotUuidsDistinct(slots)
    && NoLeaseCollision(users, slots)
  }

  function Digit(d: nat): char
    requires d < 10
  {
    ('0' as int + d) as char
  }

  /** `lease-` and the slot number in four digits. */
  function LeaseUserId(slot: nat): string
    requires slot < MAX_SLOTS
  {
    "lease-" + [Digit(slot / 1000), Digit(slot / 100 % 10), Digit(slot / 10 % 10), Digit(slot % 10)]
  }

  lemma FourDigits(n: nat)
    ensures n == 1000 * (n / 1000) + 100 * (n / 100 % 10) + 10 * (n / 10 % 10) + n % 10
  {
    assert n / 10 / 10 == n / 100 && n / 100 / 10 == n / 1000;
  }

  lemma DigitInjective(a: nat, b: nat)
    requires a < 10 && b < 10 && Digit(a) == Digit(b)
    ensures a == b
  {}

  lemma LeaseUserIdInjective(a: nat, b: nat)
    requires a < MAX_SLOTS && b < MAX_SLOTS && LeaseUserId(a) == LeaseUserId(b)
    ensures a == b
  {
    var x, y := LeaseUserId(a), LeaseUserId(b);
    assert x[6] == y[6] && x[7] == y[7] && x[8] == y[8] && x[9] == y[9];
    DigitInjective(a / 1000, b / 1000);
    DigitInjective(a / 100 % 10, b / 100 % 10);
    DigitInjective(a / 10 % 10, b / 10 % 10);
    DigitInjective(a % 10, b % 10);
    FourDigits(a);
    FourDigits(b);
  }

  function SlotUserId(s: LeaseSlotInput): string
    requires s.slot < MAX_SLOTS
  {
    if s.credentialId.Some? then s.credentialId.value else LeaseUserId(s.slot)
  }

  function FindUser(users: seq<User>, id: string): Option<User>
  {
    if users == [] then None
    else if users[0].id == id then Some(users[0])
    else FindUser(users[1..], id)
  }

  /** The record a slot starts from: the first user with its id, or a new one. */
  function LeaseTemplate(users: seq<User>, id: string, now: int, token: string -> string): User
  {
    var found := FindUser(users, id);
    if found.Some? then found.value
    else User(id, id, true, "", "", token(id), now, None, false, false, NOTHING_CARRIED)
  }

  function LeaseOverlay(u: User, s: LeaseSlotInput, id: string): User
  {
    u.(name := if s.principalId.Some? then s.principalId.value else id,
       enabled := !s.revoked,
       vlessUuid := Lower(s.vlessUuid),
       hysteria2Password := s.hysteria2Password,
       createdAt := if s.validFrom.Some? then s.validFrom.value else u.createdAt,
       expiresAt := Some(s.expiresAt),
       visionOff := false,
       googleHairpin := false)
  }

  function LeaseUser(users: seq<User>, s: LeaseSlotInput, now: int, token: string -> string): User
    requires s.slot < MAX_SLOTS
  {
    var id := SlotUserId(s);
    LeaseOverlay(LeaseTemplate(users, id, now, token), s, id)
  }

  ghost predicate SlotsInRange(slots: seq<LeaseSlotInput>)
  {
    forall i :: 0 <= i < |slots| ==> slots[i].slot < MAX_SLOTS
  }

  function LeaseUsers(users: seq<User>, slots: seq<LeaseSlotInput>, now: int, token: string -> string): seq<User>
    requires SlotsInRange(slots)
  {
    seq(|slots|, i requires 0 <= i < |slots| => LeaseUser(users, slots[i], now, token))
  }

  lemma SortedInRange(slots: seq<LeaseSlotInput>)
    requires SlotsInRange(slots)
    ensures SlotsInRange(SortBy(InputInOrder, slots))
  {
    SortKeepsMembers(InputInOrder, slots);
    var t := SortBy(InputInOrder, slots);
    forall i | 0 <= i < |t| ensures t[i].slot < MAX_SLOTS {
      assert t[i] in t;
    }
  }

  /** The list an accepted pool leaves: everyone else in order, then the slots in order. */
  function LeaseApplied(users: seq<User>, slots: seq<LeaseSlotInput>, now: int, token: string -> string): seq<User>
    requires SlotsInRange(slots)
  {
    SortedInRange(slots);
    NonLease(users) + LeaseUsers(users, SortBy(InputInOrder, slots), now, token)
  }

  method CheckSlots(slots: seq<LeaseSlotInput>) returns (r: Result<seq<Authorization>, StoreError>)
    ensures r.Ok? <==> SlotsOk(slots)
    ensures r.Ok? ==> r.value == AuthorizationsOf(slots)
  {
    var seen: set<nat> := {};
    var authorizations := [];
    for i := 0 to |slots|
      invariant seen == set j | 0 <= j < i :: slots[j].slot
      invariant authorizations == AuthorizationsOf(slots[..i])
      invariant forall j :: 0 <= j < i ==> SlotShapeOk(slots[j])
      invariant forall j, k :: 0 <= j < k < i ==> slots[j].slot != slots[k].slot
    {
      var s := slots[i];
      assert slots[..i + 1][..i] == slots[..i];
      if s.slot >= MAX_SLOTS || s.slot in seen {
        return Err(SlotOutOfRangeOrDuplicate);
      }
      seen := seen + {s.slot};
      if !ValidUuid(s.vlessUuid) || !ValidPassword(s.hysteria2Password) {
        return Err(MalformedCredential);
      }
      if s.expiresAt <= 0 {
        return Err(NoExpiry);
      }
      var count := MetadataCount(s);
      if count != 0 && count != 4 {
        return Err(PartialMetadata);
      }
      if count == 4 {
        authorizations := authorizations + [AuthorizationOf(s)];
      } else if s.revoked {
        return Err(RevokedWithoutMetadata);
      }
    }
    assert slots[..|slots|] == slots;
    r := Ok(authorizations);
  }

  method SlotUuids(slots: seq<LeaseSlotInput>) returns (distinct: bool, uuids: set<string>)
    ensures distinct <==> SlotUuidsDistinct(slots)
    ensures distinct ==> uuids == set i | 0 <= i < |slots| :: Lower(slots[i].vlessUuid)
  {
    uuids := {};
    for i := 0 to |slots|
      invariant uuids == set j | 0 <= j < i :: Lower(slots[j].vlessUuid)
      invariant forall j, k :: 0 <= j < k < i ==> Lower(slots[j].vlessUuid) != Lower(slots[k].vlessUuid)
    {
      if Lower(slots[i].vlessUuid) in uuids {
        return false, uuids;
      }
      uuids := uuids + {Lower(slots[i].vlessUuid)};
    }
    distinct := true;
  }

  lemma NonLeaseFrom(users: seq<User>, i: nat)
    requires i < |users|
    ensures NonLease(users[i..]) == (if IsLease(users[i]) then [] else [users[i]]) + NonLease(users[i + 1..])
  {
    assert users[i..][1..] == users[i + 1..];
  }

  /** Everyone but the lease users, unless one of them uses a lease uuid. */
  method CarryNonLease(users: seq<User>, uuids: set<string>) returns (next: Option<seq<User>>)
    ensures next.Some? <==> forall u :: u in users && !IsLease(u) ==> Lower(u.vlessUuid) !in uuids
    ensures next.Some? ==> next.value == NonLease(users)
  {
    var kept := [];
    for i := 0 to |users|
      invariant kept + NonLease(users[i..]) == NonLease(users)
      invariant forall j :: 0 <= j < i && !IsLease(users[j]) ==> Lower(users[j].vlessUuid) !in uuids
    {
      NonLeaseFrom(users, i);
      if !IsLease(users[i]) {
        if Lower(users[i].vlessUuid) in uuids {
          assert users[i] in users;
          return None;
        }
        Regroup(kept, [users[i]], NonLease(users[i + 1..]));
        kept := kept + [users[i]];
      }
    }
    next := Some(kept);
  }

  method BuildLeaseUsers(users: seq<User>, slots: seq<LeaseSlotInput>, now: int, token: string -> string)
    returns (built: seq<User>)
    requires SlotsInRange(slots)
    ensures built == LeaseUsers(users, slots, now, token)
  {
    built := [];
    for i := 0 to |slots|
      invariant built == LeaseUsers(users, slots[..i], now, token)
    {
      built := built + [LeaseUser(users, slots[i], now, token)];
      assert slots[..i + 1] == slots[..i] + [slots[i]];
    }
    assert slots[..|slots|] == slots;
  }

  method ReconcileLease(users: seq<User>, slots: seq<LeaseSlotInput>, now: int, token: string -> string)
    returns (r: Result<(seq<User>, bool), StoreError>)
    ensures r.Ok? <==> LeaseAccepts(users, slots)
    ensures r.Ok? ==> SlotsInRange(slots) && r.value.0 == LeaseApplied(users, slots, now, token)
    ensures r.Ok? ==> (r.value.1 <==> r.value.0 != users)
  {
    if |slots| > MAX_SLOTS {
      return Err(PoolTooLarge);
    }
    var checked := CheckSlots(slots);
    if checked.Err? {
      return Err(checked.error);
    }
    var authorizations := new AuthorizationSet(checked.value);
    var valid := authorizations.Validate();
    if valid.Err? {
      return Err(BadAuthorizations(valid.error));
    }
    var distinct, uuids := SlotUuids(slots);
    if !distinct {
      return Err(DuplicateUuid);
    }
    var kept := CarryNonLease(users, uuids);
    assert kept.Some? <==> NoLeaseCollision(users, slots);
    if kept.None? {
      return Err(UuidCollision);
    }
    SortedInRange(slots);
    var built := BuildLeaseUsers(users, SortBy(InputInOrder, slots), now, token);
    var next := kept.value + built;
    r := Ok((next, next != users));
  }

  // ----------------------------------------------------- external writer

  predicate CredentialInOrder(a: Authorization, b: Authorization)
  {
    TextLeq(a.credentialId, b.credentialId)
  }

  ghost predicate ExternalUuidsDistinct(auths: seq<Authorization>)
  {
    forall i, j :: 0 <= i < j < |auths| && auths[i].vlessUuid.Some? && auths[j].vlessUuid.Some? ==>
      Lower(auths[i].vlessUuid.value) != Lower(auths[j].vlessUuid.value)
  }

  ghost predicate NoExternalCollision(users: seq<User>, auths: seq<Authorization>)
  {
    forall u, i :: u in users && !IsExternal(u) && 0 <= i < |auths| ==>
      && u.id != auths[i].credentialId
      && (auths[i].vlessUuid.Some? ==> Lower(u.vlessUuid) != Lower(auths[i].vlessUuid.value))
  }

  /** Exactly the sets the writer takes over this user list. */
  ghost predicate ExternalAccepts(users: seq<User>, auths: seq<Authorization>)
  {
    ValidSet(auths) && AllCompatibility(auths) && ExternalUuidsDistinct(auths) && NoExternalCollision(users, auths)
  }

  function FindExternal(users: seq<User>, id: string): Option<User>
  {
    if users == [] then None
    else if users[0].id == id && IsExternal(users[0]) then Some(users[0])
    else FindExternal(users[1..], id)
  }

  function ExternalTemplate(users: seq<User>, a: Authorization, now: int, token: string -> string): User
  {
    var found := FindExternal(users, a.credentialId);
    if found.Some? then found.value
    else User(a.credentialId, a.principalId, false, "", "", token(a.credentialId), now, None, false, false,
              NOTHING_CARRIED)
  }

  function ExternalUser(users: seq<User>, a: Authorization, now: int, token: string -> string): User
  {
    ExternalTemplate(users, a, now, token).(
      name := a.principalId,
      enabled := !a.revoked,
      createdAt := a.validFrom,
      expiresAt := Some(a.validUntil),
      vlessUuid := if a.vlessUuid.Some? then Lower(a.vlessUuid.value) else "",
      hysteria2Password := if a.hysteria2Password.Some? then a.hysteria2Password.value else "")
  }

  function ExternalUsers(users: seq<User>, auths: seq<Authorization>, now: int, token: string -> string): seq<User>
  {
    seq(|auths|, i requires 0 <= i < |auths| => ExternalUser(users, auths[i], now, token))
  }

  function ExternalApplied(users: seq<User>, auths: seq<Authorization>, now: int, token: string -> string): seq<User>
  {
    NonExternal(users) + ExternalUsers(users, SortBy(CredentialInOrder, auths), now, token)
  }

  method ExternalUuids(auths: seq<Authorization>) returns (distinct: bool, uuids: set<string>)
    ensures distinct <==> ExternalUuidsDistinct(auths)
    ensures distinct ==>
      uuids == set i | 0 <= i < |auths| && auths[i].vlessUuid.Some? :: Lower(auths[i].vlessUuid.value)
  {
    uuids := {};
    for i := 0 to |auths|
      invariant uuids == set j | 0 <= j < i && auths[j].vlessUuid.Some? :: Lower(auths[j].vlessUuid.value)
      invariant forall j, k :: 0 <= j < k < i && auths[j].vlessUuid.Some? && auths[k].vlessUuid.Some? ==>
                  Lower(auths[j].vlessUuid.value) != Lower(auths[k].vlessUuid.value)
    {
      if auths[i].vlessUuid.Some? {
        var uuid := Lower(auths[i].vlessUuid.value);
        if uuid in uuids {
          return false, uuids;
        }
        uuids := uuids + {uuid};
      }
    }
    distinct := true;
  }

  method BuildExternalUsers(users: seq<User>, auths: seq<Authorization>, now: int, token: string -> string)
    returns (built: seq<User>)
    ensures built == ExternalUsers(users, auths, now, token)
  {
    built := [];
    for i := 0 to |auths|
      invariant built == ExternalUsers(users, auths[..i], now, token)
    {
      built := built + [ExternalUser(users, auths[i], now, token)];
      assert auths[..i + 1] == auths[..i] + [auths[i]];
    }
    assert auths[..|auths|] == auths;
  }

  method ReconcileExternal(users: seq<User>, auths: seq<Authorization>, now: int, token: string -> string)
    returns (r: Result<(seq<User>, bool), StoreError>)
    ensures r.Ok? <==> ExternalAccepts(users, auths)
    ensures r.Ok? ==> r.value.0 == ExternalApplied(users, auths, now, token)
    ensures r.Ok? ==> (r.value.1 <==> r.value.0 != users)
  {
    var authorizations := new AuthorizationSet(auths);
    var valid := authorizations.Validate();
    if valid.Err? {
      return Err(BadAuthorizations(valid.error));
    }
    if exists i :: 0 <= i < |auths| && auths[i].cls != Compatibility {
      return Err(NotCompatibility);
    }
    var distinct, uuids := ExternalUuids(auths);
    if !distinct {
      return Err(DuplicateUuid);
    }
    if exists u :: u in users && !IsExternal(u) && Lower(u.vlessUuid) in uuids {
      return Err(UuidCollision);
    }
    var ids := set i | 0 <= i < |auths| :: auths[i].credentialId;
    if exists u :: u in users && !IsExternal(u) && u.id in ids {
      return Err(IdCollision);
    }
    assert NoExternalCollision(users, auths);
    var built := BuildExternalUsers(users, SortBy(CredentialInOrder, auths), now, token);
    var next := NonExternal(users) + built;
    r := Ok((next, next != users));
  }
}
