/**
 What callers rely on about a validated set: the sorted active list is a
 faithful fingerprint, and renewal keeps the set valid exactly when the
 principal has room for the renewed window.
 */
module AuthorizationViews {
  import opened Prelude
  import opened Authorizations

  // --------------------------------------------------------- active list

  function ActiveOf(s: seq<Authorization>, now: int): seq<Authorization>
  {
    if s == [] then []
    else (if IsActiveAt(s[0], now) then [s[0]] else []) + ActiveOf(s[1..], now)
  }

  predicate KeyLeq(a: Authorization, b: Authorization)
  {
    if a.principalId == b.principalId then TextLeq(a.credentialId, b.credentialId)
    else TextLeq(a.principalId, b.principalId)
  }

  /** What is in force at an instant, in an order that does not depend on the stored one. */
  function ActiveAt(s: seq<Authorization>, now: int): seq<Authorization>
  {
    SortBy(KeyLeq, ActiveOf(s, now))
  }

  /** The credentials a set grants at an instant, with no order. */
  ghost function Granted(s: seq<Authorization>, now: int): set<Authorization>
  {
    set a | a in s && IsActiveAt(a, now)
  }

  lemma {:induction false} ActiveOfMembers(s: seq<Authorization>, now: int, a: Authorization)
    ensures a in ActiveOf(s, now) <==> a in s && IsActiveAt(a, now)
  {
    if s != [] {
      ActiveOfMembers(s[1..], now, a);
      assert s == [s[0]] + s[1..];
    }
  }

  lemma {:induction false} ActiveOfDistinct(s: seq<Authorization>, now: int)
    requires DistinctIds(s)
    ensures DistinctIds(ActiveOf(s, now))
  {
    if s != [] {
      ActiveOfDistinct(s[1..], now);
      var rest := ActiveOf(s[1..], now);
      forall i | 0 <= i < |rest| ensures rest[i].credentialId != s[0].credentialId {
        ActiveOfMembers(s[1..], now, rest[i]);
      }
    }
  }

  lemma KeyLeqIsTotal()
    ensures TotalPreorder(KeyLeq)
  {
    forall x, y ensures KeyLeq(x, y) || KeyLeq(y, x) {
      TextLeqTotal(x.principalId, y.principalId);
      TextLeqTotal(x.credentialId, y.credentialId);
    }
    forall x, y, z | KeyLeq(x, y) && KeyLeq(y, z) ensures KeyLeq(x, z) {
      KeyLeqTransitive(x, y, z);
    }
  }

  lemma KeyLeqTransitive(x: Authorization, y: Authorization, z: Authorization)
    requires KeyLeq(x, y) && KeyLeq(y, z)
    ensures KeyLeq(x, z)
  {
    if x.principalId == y.principalId == z.principalId {
      TextLeqTransitive(x.credentialId, y.credentialId, z.credentialId);
    } else if x.principalId != y.principalId && y.principalId != z.principalId {
      TextLeqTransitive(x.principalId, y.principalId, z.principalId);
      if x.principalId == z.principalId { TextLeqAntisymmetric(x.principalId, y.principalId); }
    }
  }

  lemma KeySeparates(s: seq<Authorization>)
    requires DistinctIds(s)
    ensures Separates(KeyLeq, s)
  {
    forall x, y | x in s && y in s && KeyLeq(x, y) && KeyLeq(y, x) ensures x == y {
      if x.principalId == y.principalId {
        TextLeqAntisymmetric(x.credentialId, y.credentialId);
      } else {
        TextLeqAntisymmetric(x.principalId, y.principalId);
      }
    }
  }

  /**
   Active lists of two sets with unique credential ids, each at its own
   instant, are equal exactly when the sets grant the same credentials there,
   whatever order either came in.
   */
  lemma FingerprintFaithful(a: seq<Authorization>, t: int, b: seq<Authorization>, u: int)
    requires DistinctIds(a) && DistinctIds(b)
    ensures ActiveAt(a, t) == ActiveAt(b, u) <==> Granted(a, t) == Granted(b, u)
  {
    var x, y := ActiveOf(a, t), ActiveOf(b, u);
    ActiveOfDistinct(a, t);
    ActiveOfDistinct(b, u);
    forall c ensures (c in x <==> c in Granted(a, t)) && (c in y <==> c in Granted(b, u)) {
      ActiveOfMembers(a, t, c);
      ActiveOfMembers(b, u, c);
    }
    SortKeepsMembers(KeyLeq, x);
    SortKeepsMembers(KeyLeq, y);
    if Granted(a, t) == Granted(b, u) {
      SameMembersSameMultiset(x, y);
      SortedViewsAgree(x, y);
    }
    if ActiveAt(a, t) == ActiveAt(b, u) {
      assert forall c :: c in x <==> c in y;
    }
  }

  lemma SortedViewsAgree(x: seq<Authorization>, y: seq<Authorization>)
    requires DistinctIds(x) && multiset(x) == multiset(y)
    ensures SortBy(KeyLeq, x) == SortBy(KeyLeq, y)
  {
    KeyLeqIsTotal();
    SortSorts(KeyLeq, x);
    SortSorts(KeyLeq, y);
    SortPermutes(KeyLeq, x);
    SortPermutes(KeyLeq, y);
    SortKeepsMembers(KeyLeq, x);
    KeySeparates(x);
    assert Separates(KeyLeq, SortBy(KeyLeq, x));
    SortedUnique(KeyLeq, SortBy(KeyLeq, x), SortBy(KeyLeq, y));
  }

  // ------------------------------------------------------------- renewal

  /** Every other credential of the set, the renewed one left out. */
  function Others(s: seq<Authorization>, k: nat): seq<Authorization>
    requires k < |s|
  {
    s[..k] + s[k + 1..]
  }

  lemma {:induction false} LiveOfAppend(a: seq<Authorization>, b: seq<Authorization>, p: string)
    ensures LiveOf(a + b, p) == LiveOf(a, p) + LiveOf(b, p)
  {
    if a == [] {
      assert a + b == b;
    } else {
      LiveOfAppend(a[1..], b, p);
      HeadTail(a, b);
      Regroup(if a[0].principalId == p && !a[0].revoked then [a[0]] else [], LiveOf(a[1..], p), LiveOf(b, p));
    }
  }

  lemma {:induction false} CountAtAppend(a: seq<Authorization>, b: seq<Authorization>, t: int)
    ensures CountAt(a + b, t) == CountAt(a, t) + CountAt(b, t)
  {
    if a == [] {
      assert a + b == b;
    } else {
      CountAtAppend(a[1..], b, t);
      HeadTail(a, b);
    }
  }

  /** One position's share of the count at an instant. */
  lemma CountSplitsAt(s: seq<Authorization>, k: nat, p: string, t: int)
    requires k < |s|
    ensures CountAt(LiveOf(s, p), t)
         == CountAt(LiveOf(Others(s, k), p), t)
          + (if s[k].principalId == p && IsActiveAt(s[k], t) then 1 else 0)
  {
    assert s == s[..k] + ([s[k]] + s[k + 1..]);
    LiveOfAppend(s[..k], [s[k]] + s[k + 1..], p);
    LiveOfAppend([s[k]], s[k + 1..], p);
    LiveOfAppend(s[..k], s[k + 1..], p);
    CountAtAppend(LiveOf(s[..k], p), LiveOf([s[k]] + s[k + 1..], p), t);
    CountAtAppend(LiveOf([s[k]], p), LiveOf(s[k + 1..], p), t);
    CountAtAppend(LiveOf(s[..k], p), LiveOf(s[k + 1..], p), t);
  }

  lemma {:induction false} LiveOfDistinct(s: seq<Authorization>, p: string)
    requires DistinctIds(s)
    ensures DistinctIds(LiveOf(s, p))
  {
    if s != [] {
      LiveOfDistinct(s[1..], p);
      var rest := LiveOf(s[1..], p);
      forall i | 0 <= i < |rest| ensures rest[i].credentialId != s[0].credentialId {
        LiveOfMembers(s[1..], p, rest[i]);
      }
    }
  }

  ghost predicate PairsBounded(s: seq<Authorization>, p: string)
  {
    forall a, b :: a in s && b in s && a.principalId == p && b.principalId == p
                && !a.revoked && !b.revoked && a.credentialId != b.credentialId
                ==> Overlap(a, b) <= MAX_OVERLAP_SECS
  }

  lemma OverlapsByMembers(s: seq<Authorization>, p: string)
    requires DistinctIds(s)
    ensures OverlapsBounded(LiveOf(s, p)) <==> PairsBounded(s, p)
  {
    var c := LiveOf(s, p);
    if OverlapsBounded(c) {
      forall a, b | a in s && b in s && a.principalId == p && b.principalId == p
                 && !a.revoked && !b.revoked && a.credentialId != b.credentialId
        ensures Overlap(a, b) <= MAX_OVERLAP_SECS
      {
        PairBounded(s, p, a, b);
      }
    }
    if PairsBounded(s, p) {
      LiveOfDistinct(s, p);
      forall i, j | 0 <= i < j < |c| ensures Overlap(c[i], c[j]) <= MAX_OVERLAP_SECS {
        LiveOfMembers(s, p, c[i]);
        LiveOfMembers(s, p, c[j]);
      }
    }
  }

  lemma PairBounded(s: seq<Authorization>, p: string, a: Authorization, b: Authorization)
    requires OverlapsBounded(LiveOf(s, p)) && a in s && b in s && a.credentialId != b.credentialId
    requires a.principalId == p && b.principalId == p && !a.revoked && !b.revoked
    ensures Overlap(a, b) <= MAX_OVERLAP_SECS
  {
    var c := LiveOf(s, p);
    LiveOfMembers(s, p, a);
    LiveOfMembers(s, p, b);
    var i :| 0 <= i < |c| && c[i] == a;
    var j :| 0 <= j < |c| && c[j] == b;
    assert i < j ==> Overlap(c[i], c[j]) <= MAX_OVERLAP_SECS;
    assert j < i ==> Overlap(c[j], c[i]) <= MAX_OVERLAP_SECS;
  }

  /** The renewed window leaves room for at most one other credential at every instant. */
  ghost predicate RoomToRenew(s: seq<Authorization>, k: nat, now: int)
    requires k < |s|
  {
    forall t :: now <= t < now + NATIVE_LEASE_SECS ==>
      CountAt(LiveOf(Others(s, k), s[k].principalId), t) < MAX_SIMULTANEOUS
  }

  /**
   In a valid set, renewal succeeds exactly for a native credential active at
   `now`, short of overflow. It then keeps the identity and secrets, gives the
   credential exactly the native lease from `now`, and leaves the set valid if
   and only if there was room for it.
   */
  lemma RenewalKeepsValidity(s: seq<Authorization>, id: string, now: int)
    requires ValidSet(s)
    ensures Renewed(s, id, now).0.Ok? <==>
            && now + NATIVE_LEASE_SECS <= I64_MAX
            && exists a :: a in Granted(s, now) && a.credentialId == id && a.cls == Native
    ensures Renewed(s, id, now).0.Ok? ==>
            var k := FindId(s, id); var next := Renewed(s, id, now).1;
            k < |s| && |next| == |s| && Others(next, k) == Others(s, k)
            && next[k] == s[k].(validFrom := now, validUntil := now + NATIVE_LEASE_SECS)
            && (ValidSet(next) <==> RoomToRenew(s, k, now))
  {
    var k := FindId(s, id);
    RenewsIff(s, id, now);
    if Renewed(s, id, now).0.Ok? { RenewedSetValidIff(s, k, now, Renewed(s, id, now).1); }
  }

  lemma RenewsIff(s: seq<Authorization>, id: string, now: int)
    requires ValidSet(s)
    ensures Renewed(s, id, now).0.Ok? <==>
            && now + NATIVE_LEASE_SECS <= I64_MAX
            && exists a :: a in Granted(s, now) && a.credentialId == id && a.cls == Native
  {
    var k := FindId(s, id);
    if Renewed(s, id, now).0.Ok? { assert s[k] in Granted(s, now); }
    forall a | a in Granted(s, now) && a.credentialId == id ensures k < |s| && s[k] == a {
      var i :| 0 <= i < |s| && s[i] == a;
    }
  }

  lemma RenewedSetValidIff(s: seq<Authorization>, k: nat, now: int, next: seq<Authorization>)
    requires ValidSet(s) && k < |s| && s[k].cls == Native && IsActiveAt(s[k], now) && now + NATIVE_LEASE_SECS <= I64_MAX
    requires next == s[k := s[k].(validFrom := now, validUntil := now + NATIVE_LEASE_SECS)]
    ensures Others(next, k) == Others(s, k) && (ValidSet(next) <==> RoomToRenew(s, k, now))
  {
    assert Others(next, k) == Others(s, k);
    RenewedItemsOk(s, k, now, next);
    if RoomToRenew(s, k, now) {
      forall p ensures PrincipalOk(next, p) {
        RenewalOverlaps(s, k, next, p);
        forall t ensures CountAt(LiveOf(next, p), t) <= MAX_SIMULTANEOUS {
          RenewedCount(s, k, now, next, p, t);
        }
      }
    }
    if ValidSet(next) {
      forall t | now <= t < now + NATIVE_LEASE_SECS
        ensures CountAt(LiveOf(Others(s, k), s[k].principalId), t) < MAX_SIMULTANEOUS
      {
        RenewedCount(s, k, now, next, s[k].principalId, t);
        assert PrincipalOk(next, s[k].principalId);
      }
    }
  }

  lemma RenewedItemsOk(s: seq<Authorization>, k: nat, now: int, next: seq<Authorization>)
    requires ValidSet(s) && k < |s| && s[k].cls == Native && IsActiveAt(s[k], now) && now + NATIVE_LEASE_SECS <= I64_MAX
    requires next == s[k := s[k].(validFrom := now, validUntil := now + NATIVE_LEASE_SECS)]
    ensures ItemsOk(next) && DistinctIds(next)
  {
    assert ItemOk(s[k]);
  }

  /** A principal's count after the renewal: the others, and one more while the new lease runs. */
  lemma RenewedCount(s: seq<Authorization>, k: nat, now: int, next: seq<Authorization>, p: string, t: int)
    requires ValidSet(s) && k < |s| && IsActiveAt(s[k], now)
    requires next == s[k := s[k].(validFrom := now, validUntil := now + NATIVE_LEASE_SECS)]
    ensures var others := CountAt(LiveOf(Others(s, k), p), t);
            && others <= MAX_SIMULTANEOUS
            && CountAt(LiveOf(next, p), t)
               == others + if s[k].principalId == p && now <= t < now + NATIVE_LEASE_SECS then 1 else 0
  {
    assert Others(next, k) == Others(s, k);
    CountSplitsAt(next, k, p, t);
    CountSplitsAt(s, k, p, t);
    assert PrincipalOk(s, p);
  }

  lemma RenewalOverlaps(s: seq<Authorization>, k: nat, next: seq<Authorization>, p: string)
    requires ValidSet(s) && k < |s|
    requires |next| == |s| && forall i :: 0 <= i < |s| && i != k ==> next[i] == s[i]
    requires next[k].credentialId == s[k].credentialId
    requires next[k].validUntil - next[k].validFrom == NATIVE_LEASE_SECS
    ensures OverlapsBounded(LiveOf(next, p))
  {
    assert PrincipalOk(s, p);
    OverlapsByMembers(s, p);
    OverlapsByMembers(next, p);
    forall a, b | a in next && b in next && a.principalId == p && b.principalId == p
               && !a.revoked && !b.revoked && a.credentialId != b.credentialId
      ensures Overlap(a, b) <= MAX_OVERLAP_SECS
    {
      if a != next[k] && b != next[k] { assert a in s && b in s; }
    }
  }

  /** A native lease of one fixed principal, used by the example below. */
  function Lease(id: string, from: int): Authorization
  {
    Authorization("native_aaaaaa", id, Native, from, from + 1000, false,
                  Some("00000000-0000-4000-8000-000000000000"), None)
  }

  lemma ThreeLeases(a: Authorization, b: Authorization, c: Authorization, p: string, t: int)
    requires a.principalId == b.principalId == c.principalId
    requires !a.revoked && !b.revoked && !c.revoked
    ensures LiveOf([a, b, c], p) == if p == a.principalId then [a, b, c] else []
    ensures CountAt([a, b, c], t) == CountAt([a], t) + CountAt([b], t) + CountAt([c], t)
    ensures CountAt(LiveOf([b, c], b.principalId), t) == CountAt([b], t) + CountAt([c], t)
  {
    assert [a, b, c] == [a] + [b, c] && [b, c] == [b] + [c];
    LiveOfAppend([a], [b, c], p);
    LiveOfAppend([b], [c], p);
    LiveOfAppend([b], [c], b.principalId);
    CountAtAppend([a], [b, c], t);
    CountAtAppend([b], [c], t);
  }

  lemma LeaseOk(id: string, from: int)
    requires ValidCredentialId(id) && 0 <= from <= 1000
    ensures ItemOk(Lease(id, from))
  {}

  lemma StaggeredIsValid(a: Authorization, b: Authorization, c: Authorization)
    requires a == Lease("cred_aaaaaaa", 0) && b == Lease("cred_bbbbbbb", 500) && c == Lease("cred_ccccccc", 1000)
    ensures ValidSet([a, b, c])
  {
    var s := [a, b, c];
    LeaseOk("cred_aaaaaaa", 0);
    LeaseOk("cred_bbbbbbb", 500);
    LeaseOk("cred_ccccccc", 1000);
    forall p ensures PrincipalOk(s, p) {
      StaggeredPrincipal(a, b, c, p);
    }
  }

  lemma StaggeredPrincipal(a: Authorization, b: Authorization, c: Authorization, p: string)
    requires a == Lease("cred_aaaaaaa", 0) && b == Lease("cred_bbbbbbb", 500) && c == Lease("cred_ccccccc", 1000)
    ensures PrincipalOk([a, b, c], p)
  {
    forall t ensures CountAt(LiveOf([a, b, c], p), t) <= MAX_SIMULTANEOUS {
      ThreeLeases(a, b, c, p, t);
    }
    ThreeLeases(a, b, c, p, 0);
  }

  /** The failing family is not empty: three staggered native leases of one principal. */
  lemma RenewalCanCrowdAPrincipal()
    ensures exists s, id, now :: ValidSet(s) && Renewed(s, id, now).0.Ok? && !ValidSet(Renewed(s, id, now).1)
  {
    var a, b, c := Lease("cred_aaaaaaa", 0), Lease("cred_bbbbbbb", 500), Lease("cred_ccccccc", 1000);
    var s := [a, b, c];
    StaggeredIsValid(a, b, c);
    assert FindId(s, "cred_aaaaaaa") == 0;
    assert Renewed(s, "cred_aaaaaaa", 900).0.Ok?;
    RenewalKeepsValidity(s, "cred_aaaaaaa", 900);
    assert Others(s, 0) == [b, c];
    ThreeLeases(a, b, c, a.principalId, 1200);
    assert CountAt([b], 1200) == 1 && CountAt([c], 1200) == 1;
    assert !RoomToRenew(s, 0, 900);
    assert !ValidSet(Renewed(s, "cred_aaaaaaa", 900).1);
  }

  /** A failed renewal leaves the set alone unless it failed on the timestamp. */
  lemma FailedRenewalUnchangedIff(s: seq<Authorization>, id: string, now: int)
    requires Renewed(s, id, now).0.Err?
    ensures Renewed(s, id, now).1 == s <==>
            !(FindId(s, id) < |s| && s[FindId(s, id)].cls == Native
              && IsActiveAt(s[FindId(s, id)], now) && s[FindId(s, id)].validFrom < now
              && now + NATIVE_LEASE_SECS > I64_MAX)
  {
    var k := FindId(s, id);
    var next := Renewed(s, id, now).1;
    if k < |s| && next != s { assert next[k] != s[k]; }
    if k < |s| && next == s { assert next[k] == s[k]; }
  }

  /** The overflow does happen: a lease close to the end of time is refused and has moved all the same. */
  lemma OverflowMovesStart()
    ensures var s, now := [Lease("cred_aaaaaaa", I64_MAX - 1500)], I64_MAX - 1000;
            Renewed(s, "cred_aaaaaaa", now) == (Err(TimestampOverflow), [s[0].(validFrom := now)])
  {
    var s := [Lease("cred_aaaaaaa", I64_MAX - 1500)];
    assert FindId(s, "cred_aaaaaaa") == 0;
    var moved := s[0].(validFrom := I64_MAX - 1000);
    assert s[0 := moved] == [moved];
  }
}
