/** Inputs the two writers accept and on which each of their promises fails. */
module StoreExamples {
  import opened Prelude
  import opened Authorizations
  import opened UserStore
  import opened StoreTheorems

  const UUID_A := "00000000-0000-4000-8000-00000000000a"
  const UUID_B := "00000000-0000-4000-8000-00000000000b"
  const PASSWORD := "passwordpassword"
  const ID := "cred_0000000"

  const NATIVE_SLOT :=
    LeaseSlotInput(0, UUID_A, PASSWORD, 1000, Some("native_00000"), Some(ID), Some(Native), Some(1), false)

  const COMPATIBILITY_SLOT :=
    LeaseSlotInput(0, UUID_A, PASSWORD, 1000, Some("ext_00000000"), Some(ID), Some(Compatibility), Some(1), false)

  function UserNamed(name: string, uuid: string, token: string): User
  {
    User(ID, name, true, uuid, "", token, 0, None, false, false, NOTHING_CARRIED)
  }

  lemma UuidsDiffer()
    ensures ValidUuid(UUID_A) && Lower(UUID_A) != Lower(UUID_B)
  {
    assert Lower(UUID_A)[35] == 'a' && Lower(UUID_B)[35] == 'b';
  }

  lemma SingleSetValid(a: Authorization)
    requires ItemOk(a)
    ensures ValidSet([a])
  {
    forall p ensures PrincipalOk([a], p) {
      assert LiveOf([], p) == [];
      assert |LiveOf([a], p)| <= 1;
      forall t ensures CountAt(LiveOf([a], p), t) <= MAX_SIMULTANEOUS {
        if LiveOf([a], p) != [] { assert LiveOf([a], p)[1..] == []; }
      }
    }
  }

  lemma SingleSlotAccepted(s: LeaseSlotInput, users: seq<User>)
    requires s in {NATIVE_SLOT, COMPATIBILITY_SLOT} && NoLeaseCollision(users, [s])
    ensures LeaseAccepts(users, [s]) && SlotsInRange([s])
  {
    UuidsDiffer();
    var a := AuthorizationOf(s);
    ExampleItemOk(s);
    assert [s][..0] == [];
    assert AuthorizationsOf([s]) == [a];
    SingleSetValid(a);
  }

  lemma ExampleItemOk(s: LeaseSlotInput)
    requires s in {NATIVE_SLOT, COMPATIBILITY_SLOT}
    ensures ItemOk(AuthorizationOf(s))
  {
    UuidsDiffer();
    assert "native_00000"[..7] == "native_" && "ext_00000000"[..4] == "ext_" && ID[..5] == "cred_";
    assert OpaqueShape("native_00000") && OpaqueShape("ext_00000000") && OpaqueShape(ID);
  }

  /** A compatibility slot is accepted once and refused the second time. */
  lemma CompatibilitySlotNotIdempotent(now: int, token: string -> string)
    ensures LeaseAccepts([], [COMPATIBILITY_SLOT]) && SlotsInRange([COMPATIBILITY_SLOT])
    ensures !LeaseAccepts(LeaseApplied([], [COMPATIBILITY_SLOT], now, token), [COMPATIBILITY_SLOT])
  {
    var slots := [COMPATIBILITY_SLOT];
    SingleSlotAccepted(COMPATIBILITY_SLOT, []);
    assert !NativeOrLegacy(slots[0]);
    SecondPassAccepted([], slots, now, token);
  }

  /** And its user survives only if the lease writer comes last. */
  lemma CompatibilitySlotNeedsLastWord(now: int, token: string -> string)
    ensures var slots := [COMPATIBILITY_SLOT];
            && LeaseAccepts([], slots) && SlotsInRange(slots) && ExternalAccepts([], [])
            && ExternalAccepts(LeaseApplied([], slots, now, token), [])
            && LeaseAccepts(ExternalApplied([], [], now, token), slots)
            && |ExternalApplied(LeaseApplied([], slots, now, token), [], now, token)|
             < |LeaseApplied(ExternalApplied([], [], now, token), slots, now, token)|
  {
    var slots := [COMPATIBILITY_SLOT];
    SingleSlotAccepted(COMPATIBILITY_SLOT, []);
    EmptySetValid();
    assert ExternalApplied([], [], now, token) == [];
    assert !NativeOrLegacy(slots[0]);
    CompatibilitySlotDropped([], slots, [], now, token);
  }

  lemma OwnersOfExample(mine: User, other: User)
    requires mine.id == other.id == ID && mine.name == "native_00000" && other.name == "someone"
    ensures IsLease(mine) && !IsLease(other)
  {
    assert "native_00000"[..7] == "native_" && ID[..5] == "cred_";
    assert "lease-"[0] != ID[0] && "native_"[0] != "someone"[0];
  }

  /** A lease user and a user of another owner with the same id: the second pass inherits from the other one. */
  lemma ForeignIdNotIdempotent(now: int, token: string -> string)
    ensures var users := [UserNamed("native_00000", UUID_A, "x"), UserNamed("someone", UUID_B, "y")];
            var slots := [NATIVE_SLOT];
            && LeaseAccepts(users, slots) && SlotsInRange(slots) && AllNativeOrLegacy(slots)
            && LeaseApplied(LeaseApplied(users, slots, now, token), slots, now, token)
            != LeaseApplied(users, slots, now, token)
  {
    var mine, other := UserNamed("native_00000", UUID_A, "x"), UserNamed("someone", UUID_B, "y");
    var users, slots := [mine, other], [NATIVE_SLOT];
    OwnersOfExample(mine, other);
    UuidsDiffer();
    SingleSlotAccepted(NATIVE_SLOT, users);
    assert users[1..] == [other] && [other][1..] == [];
    assert NonLease([other]) == [other] by { assert NonLease([]) == []; }
    assert NonLease(users) == NonLease([other]) by {
      assert KeepIf(false, mine) + NonLease([other]) == NonLease([other]);
    }
    assert FindUser(users, ID) == Some(mine) && FindUser([other], ID) == Some(other);
    assert !InheritsSame(users, NATIVE_SLOT);
    assert slots[0] == NATIVE_SLOT;
    SecondPassSame(users, slots, now, token, now, token);
  }
}
