/**
 Time-bounded authorization records: the per-item rules, the per-principal
 overlap and simultaneity bounds, the deterministic active view and native
 renewal (crates/compat-config/src/authorization.rs).
 */
module Authorizations {
  import opened Prelude

  const NATIVE_LEASE_SECS := 30 * 60
  const COMPAT_MAX_LIFETIME_SECS := 30 * 24 * 60 * 60
  const MAX_OVERLAP_SECS := 48 * 60 * 60
  const MAX_SIMULTANEOUS := 2
  const I64_MIN := -0x8000_0000_0000_0000
  const I64_MAX := 0x7fff_ffff_ffff_ffff

  datatype CredentialClass = Native | Compatibility

  datatype Authorization = Authorization(
    principalId: string,
    credentialId: string,
    cls: CredentialClass,
    validFrom: int,
    validUntil: int,
    revoked: bool,
    vlessUuid: Option<string>,
    hysteria2Password: Option<string>)

  datatype ItemError =
    | BadPrincipalId | BadCredentialId | ClassMismatch | RangeOverflow
    | EmptyInterval | NoSecret | BadUuid | BadPassword | LifetimeTooLong

  datatype SetError =
    | BadItem(error: ItemError)
    | DuplicateCredential(credentialId: string)
    | OverlapTooLong(principal: string)
    | TooManySimultaneous(principal: string)

  datatype RenewError = NotFound | NotRenewable | TimestampOverflow

  // ------------------------------------------------------------ one item

  predicate IdChar(c: char)
  {
    'a' <= c <= 'z' || 'A' <= c <= 'Z' || '0' <= c <= '9' || c == '_' || c == '-'
  }

  predicate OpaqueShape(id: string)
  {
    12 <= |id| <= 96 && forall i :: 0 <= i < |id| ==> IdChar(id[i])
  }

  predicate ValidPrincipalId(id: string)
  {
    ("native_" <= id || "ext_" <= id) && OpaqueShape(id)
  }

  predicate ValidCredentialId(id: string)
  {
    "cred_" <= id && OpaqueShape(id)
  }

  predicate HexDigit(c: char)
  {
    '0' <= c <= '9' || 'a' <= c <= 'f' || 'A' <= c <= 'F'
  }

  predicate ValidUuid(s: string)
  {
    |s| == 36 &&
    forall i :: 0 <= i < 36 ==>
      if i == 8 || i == 13 || i == 18 || i == 23 then s[i] == '-' else HexDigit(s[i])
  }

  predicate ValidPassword(s: string)
  {
    16 <= |s| <= 128 && forall i :: 0 <= i < |s| ==> '!' <= s[i] <= '~'
  }

  predicate ClassMatchesPrincipal(a: Authorization)
  {
    match a.cls
    case Native => "native_" <= a.principalId
    case Compatibility => "ext_" <= a.principalId
  }

  function MaxLifetime(cls: CredentialClass): int
  {
    match cls
    case Native => NATIVE_LEASE_SECS
    case Compatibility => COMPAT_MAX_LIFETIME_SECS
  }

  /** The first rule, in order of checking, that this record breaks on its own. */
  function ValidateItem(a: Authorization): Result<(), ItemError>
  {
    var lifetime := a.validUntil - a.validFrom;
    if !ValidPrincipalId(a.principalId) then Err(BadPrincipalId)
    else if !ValidCredentialId(a.credentialId) then Err(BadCredentialId)
    else if !ClassMatchesPrincipal(a) then Err(ClassMismatch)
    else if !(I64_MIN <= lifetime <= I64_MAX) then Err(RangeOverflow)
    else if a.revoked then Ok(())
    else if lifetime <= 0 then Err(EmptyInterval)
    else if a.vlessUuid.None? && a.hysteria2Password.None? then Err(NoSecret)
    else if a.vlessUuid.Some? && !ValidUuid(a.vlessUuid.value) then Err(BadUuid)
    else if a.hysteria2Password.Some? && !ValidPassword(a.hysteria2Password.value) then Err(BadPassword)
    else if lifetime > MaxLifetime(a.cls) then Err(LifetimeTooLong)
    else Ok(())
  }

  predicate ItemOk(a: Authorization)
  {
    ValidateItem(a).Ok?
  }

  /** The rules in the order they are checked. */
  const RULES := [BadPrincipalId, BadCredentialId, ClassMismatch, RangeOverflow,
                  EmptyInterval, NoSecret, BadUuid, BadPassword, LifetimeTooLong]

  predicate BadId(id: string)
  {
    |id| < 12 || |id| > 96 || exists i :: 0 <= i < |id| && !IdChar(id[i])
  }

  /** The record breaks this rule. A revoked one only has to be identifiable. */
  predicate Breaks(a: Authorization, rule: ItemError)
  {
    match rule
    case BadPrincipalId => !("native_" <= a.principalId || "ext_" <= a.principalId) || BadId(a.principalId)
    case BadCredentialId => !("cred_" <= a.credentialId) || BadId(a.credentialId)
    case ClassMismatch => !((if a.cls.Native? then "native_" else "ext_") <= a.principalId)
    case RangeOverflow => !(-0x8000_0000_0000_0000 <= a.validUntil - a.validFrom < 0x8000_0000_0000_0000)
    case EmptyInterval => !a.revoked && a.validUntil <= a.validFrom
    case NoSecret => !a.revoked && a.vlessUuid == a.hysteria2Password == None
    case BadUuid => !a.revoked && a.vlessUuid.Some? && !ValidUuid(a.vlessUuid.value)
    case BadPassword => !a.revoked && a.hysteria2Password.Some? && !ValidPassword(a.hysteria2Password.value)
    case LifetimeTooLong => !a.revoked && a.validUntil - a.validFrom > if a.cls.Native? then 1800 else 2592000
  }

  lemma BadIdIff(id: string)
    ensures OpaqueShape(id) <==> !BadId(id)
  {}

  /** A record is refused with the first rule, in order, that it breaks, and accepted if and only if it breaks none. */
  lemma FirstBrokenRule(a: Authorization, k: nat)
    requires k < |RULES|
    ensures ValidateItem(a) == Err(RULES[k]) <==> Breaks(a, RULES[k]) && forall j :: 0 <= j < k ==> !Breaks(a, RULES[j])
    ensures ItemOk(a) <==> forall j :: 0 <= j < |RULES| ==> !Breaks(a, RULES[j])
  {
    BadIdIff(a.principalId);
    BadIdIff(a.credentialId);
    assert RULES[0] == BadPrincipalId && RULES[1] == BadCredentialId && RULES[2] == ClassMismatch;
    assert RULES[3] == RangeOverflow && RULES[4] == EmptyInterval && RULES[5] == NoSecret;
    assert RULES[6] == BadUuid && RULES[7] == BadPassword && RULES[8] == LifetimeTooLong;
  }

  /** Letters, digits, underscore and hyphen, by their codes. */
  lemma IdCharIff(c: char)
    ensures var n := c as int; IdChar(c) <==> 48 <= n <= 57 || 65 <= n <= 90 || 97 <= n <= 122 || n == 95 || n == 45
  {}

  lemma HexDigitIff(c: char)
    ensures var n := c as int; HexDigit(c) <==> 48 <= n <= 57 || 65 <= n <= 70 || 97 <= n <= 102
  {}

  ghost predicate Hex(s: string, n: nat)
  {
    |s| == n && forall i :: 0 <= i < n ==> HexDigit(s[i])
  }

  /** A uuid is five groups of 8, 4, 4, 4 and 12 hexadecimal digits, joined by hyphens. */
  lemma UuidIff(s: string)
    ensures ValidUuid(s) <==>
            && |s| == 36 && s[8] == s[13] == s[18] == s[23] == '-'
            && Hex(s[..8], 8) && Hex(s[9..13], 4) && Hex(s[14..18], 4) && Hex(s[19..23], 4) && Hex(s[24..], 12)
  {
    if |s| == 36 {
      Group(s, 0, 8);
      Group(s, 9, 13);
      Group(s, 14, 18);
      Group(s, 19, 23);
      Group(s, 24, 36);
      assert s[0..8] == s[..8] && s[24..36] == s[24..];
    }
  }

  lemma Group(s: string, from: nat, to: nat)
    requires from <= to <= |s|
    ensures Hex(s[from..to], to - from) <==> forall i :: from <= i < to ==> HexDigit(s[i])
  {
    if Hex(s[from..to], to - from) {
      forall i | from <= i < to ensures HexDigit(s[i]) { assert s[from..to][i - from] == s[i]; }
    }
  }

  lemma PasswordIff(s: string)
    ensures ValidPassword(s) <==> 16 <= |s| <= 128 && forall c :: c in s ==> 33 <= c as int <= 126
  {
    assert '!' as int == 33 && '~' as int == 126;
    if forall c :: c in s ==> 33 <= c as int <= 126 {
      forall i | 0 <= i < |s| ensures '!' <= s[i] <= '~' { assert s[i] in s; }
    }
  }

  /** What acceptance means, rule by rule. */
  lemma ItemOkIff(a: Authorization)
    ensures ItemOk(a) <==>
            && (if a.cls.Native? then "native_" <= a.principalId else "ext_" <= a.principalId)
            && OpaqueShape(a.principalId) && "cred_" <= a.credentialId && OpaqueShape(a.credentialId)
            && -0x8000_0000_0000_0000 <= a.validUntil - a.validFrom < 0x8000_0000_0000_0000
            && (!a.revoked ==>
                 && 0 < a.validUntil - a.validFrom <= (if a.cls.Native? then 1800 else 2592000)
                 && (a.vlessUuid.Some? || a.hysteria2Password.Some?)
                 && (a.vlessUuid.Some? ==> ValidUuid(a.vlessUuid.value))
                 && (a.hysteria2Password.Some? ==> ValidPassword(a.hysteria2Password.value)))
  {}

  predicate IsActiveAt(a: Authorization, now: int)
  {
    !a.revoked && a.validFrom <= now && now < a.validUntil
  }

  // ------------------------------------------------- set rules, pointwise

  /** The credentials of one principal that still count, in order. */
  function LiveOf(s: seq<Authorization>, p: string): seq<Authorization>
  {
    if s == [] then []
    else (if s[0].principalId == p && !s[0].revoked then [s[0]] else []) + LiveOf(s[1..], p)
  }

  /** How many credentials hold the instant `t` in their half-open interval. */
  function CountAt(c: seq<Authorization>, t: int): nat
  {
    if c == [] then 0
    else (if c[0].validFrom <= t < c[0].validUntil then 1 else 0) + CountAt(c[1..], t)
  }

  function Overlap(a: Authorization, b: Authorization): int
  {
    Min(a.validUntil, b.validUntil) - Max(a.validFrom, b.validFrom)
  }

  ghost predicate OverlapsBounded(c: seq<Authorization>)
  {
    forall i, j :: 0 <= i < j < |c| ==> Overlap(c[i], c[j]) <= MAX_OVERLAP_SECS
  }

  ghost predicate NeverMoreThanTwo(c: seq<Authorization>)
  {
    forall t :: CountAt(c, t) <= MAX_SIMULTANEOUS
  }

  /** The per-principal rule as a statement about every pair and every instant. */
  ghost predicate PrincipalOk(s: seq<Authorization>, p: string)
  {
    OverlapsBounded(LiveOf(s, p)) && NeverMoreThanTwo(LiveOf(s, p))
  }

  ghost predicate ItemsOk(s: seq<Authorization>)
  {
    forall i :: 0 <= i < |s| ==> ItemOk(s[i])
  }

  ghost predicate DistinctIds(s: seq<Authorization>)
  {
    forall i, j :: 0 <= i < j < |s| ==> s[i].credentialId != s[j].credentialId
  }

  ghost predicate ValidSet(s: seq<Authorization>)
  {
    ItemsOk(s) && DistinctIds(s) && forall p :: PrincipalOk(s, p)
  }

  ghost predicate AllCompatibility(s: seq<Authorization>)
  {
    forall i :: 0 <= i < |s| ==> s[i].cls == Compatibility
  }

  lemma EmptySetValid()
    ensures ValidSet([])
  {
    forall p ensures PrincipalOk([], p) {}
  }

  ghost predicate Ordered(c: seq<Authorization>)
  {
    forall i :: 0 <= i < |c| ==> c[i].validFrom <= c[i].validUntil
  }

  lemma {:induction false} LiveOfMembers(s: seq<Authorization>, p: string, a: Authorization)
    ensures a in LiveOf(s, p) <==> a in s && a.principalId == p && !a.revoked
  {
    if s != [] {
      LiveOfMembers(s[1..], p, a);
      assert s == [s[0]] + s[1..];
    }
  }

  lemma LiveOfOrdered(s: seq<Authorization>, p: string)
    requires ItemsOk(s)
    ensures Ordered(LiveOf(s, p))
  {
    var c := LiveOf(s, p);
    forall i | 0 <= i < |c| ensures c[i].validFrom <= c[i].validUntil {
      LiveOfMembers(s, p, c[i]);
    }
  }

  // ------------------------------------------------------ the sweep line

  datatype Event = Event(at: int, delta: int)

  predicate EventLeq(a: Event, b: Event)
  {
    a.at < b.at || (a.at == b.at && a.delta <= b.delta)
  }

  function Events(c: seq<Authorization>): seq<Event>
  {
    if c == [] then []
    else [Event(c[0].validFrom, 1), Event(c[0].validUntil, -1)] + Events(c[1..])
  }

  function Timeline(c: seq<Authorization>): seq<Event>
  {
    SortBy(EventLeq, Events(c))
  }

  function Total(e: seq<Event>): int
  {
    if e == [] then 0 else Total(e[..|e| - 1]) + e[|e| - 1].delta
  }

  /** Running counter never exceeds the bound, as the loop checks it. */
  ghost predicate SweepAccepts(e: seq<Event>)
  {
    forall k :: 0 <= k <= |e| ==> Total(e[..k]) <= MAX_SIMULTANEOUS
  }

  /** Net effect of every event at or before `t`. */
  function NetAt(e: seq<Event>, t: int): int
  {
    if e == [] then 0 else (if e[0].at <= t then e[0].delta else 0) + NetAt(e[1..], t)
  }

  lemma {:induction false} NetAtAppend(a: seq<Event>, b: seq<Event>, t: int)
    ensures NetAt(a + b, t) == NetAt(a, t) + NetAt(b, t)
  {
    if a == [] {
      assert a + b == b;
    } else {
      NetAtAppend(a[1..], b, t);
      assert (a + b)[1..] == a[1..] + b;
    }
  }

  lemma {:induction false} NetAtInsert(x: Event, e: seq<Event>, t: int)
    ensures NetAt(Insert(EventLeq, x, e), t) == NetAt([x] + e, t)
  {
    if !(e == [] || EventLeq(x, e[0])) {
      NetAtInsert(x, e[1..], t);
      assert NetAt([x] + e[1..], t) == (if x.at <= t then x.delta else 0) + NetAt(e[1..], t);
      assert ([x] + e)[1..] == e;
      assert ([x] + e[1..])[1..] == e[1..];
      assert ([e[0]] + Insert(EventLeq, x, e[1..]))[1..] == Insert(EventLeq, x, e[1..]);
    }
  }

  lemma {:induction false} NetAtSort(e: seq<Event>, t: int)
    ensures NetAt(SortBy(EventLeq, e), t) == NetAt(e, t)
  {
    if e != [] {
      NetAtSort(e[1..], t);
      NetAtInsert(e[0], SortBy(EventLeq, e[1..]), t);
      assert ([e[0]] + SortBy(EventLeq, e[1..]))[1..] == SortBy(EventLeq, e[1..]);
    }
  }

  lemma {:induction false} NetAtEvents(c: seq<Authorization>, t: int)
    requires Ordered(c)
    ensures NetAt(Events(c), t) == CountAt(c, t)
  {
    if c != [] {
      NetAtEvents(c[1..], t);
      NetAtAppend([Event(c[0].validFrom, 1), Event(c[0].validUntil, -1)], Events(c[1..]), t);
    }
  }

  /** In a sorted list the events at or before `t` are a prefix. */
  lemma {:induction false} NetAtIsPrefix(e: seq<Event>, t: int) returns (k: nat)
    requires Sorted(EventLeq, e)
    ensures k <= |e| && NetAt(e, t) == Total(e[..k])
    ensures forall i :: 0 <= i < |e| ==> (i < k <==> e[i].at <= t)
  {
    if e == [] {
      k := 0;
    } else {
      var last := |e| - 1;
      var n := NetAtIsPrefix(e[..last], t);
      assert e == e[..last] + [e[last]];
      NetAtAppend(e[..last], [e[last]], t);
      assert n == last || (e[..last][n] == e[n] && EventLeq(e[n], e[last]));
      if e[last].at <= t {
        k := |e|;
        assert e[..k] == e && e[..last][..n] == e[..last];
      } else {
        k := n;
        assert e[..last][..k] == e[..k];
      }
    }
  }

  lemma {:induction false} TotalGrows(e: seq<Event>, k: nat, m: nat)
    requires k <= m <= |e|
    requires forall i :: k <= i < m ==> e[i].delta >= 0
    ensures Total(e[..k]) <= Total(e[..m])
    decreases m
  {
    if k < m {
      TotalGrows(e, k, m - 1);
      assert e[..m][..m - 1] == e[..m - 1];
    }
  }

  /** The first prefix over the bound ends with a start, and its instant is over the bound. */
  lemma OverBoundHasInstant(e: seq<Event>, k: nat)
    requires Sorted(EventLeq, e) && k < |e|
    requires Total(e[..k]) <= MAX_SIMULTANEOUS < Total(e[..k + 1])
    ensures NetAt(e, e[k].at) > MAX_SIMULTANEOUS
  {
    assert e[..k + 1][..k] == e[..k];
    assert e[k].delta >= 1;
    var m := NetAtIsPrefix(e, e[k].at);
    forall i | k + 1 <= i < m ensures e[i].delta >= 0 {
      assert EventLeq(e[k], e[i]);
    }
    TotalGrows(e, k + 1, m);
  }

  lemma EventLeqIsTotal()
    ensures TotalPreorder(EventLeq)
  {}

  /** The counter over sorted events equals the pointwise bound at every instant. */
  lemma SweepIsPointwise(c: seq<Authorization>)
    requires Ordered(c)
    ensures SweepAccepts(Timeline(c)) <==> NeverMoreThanTwo(c)
  {
    var e := Timeline(c);
    EventLeqIsTotal();
    SortSorts(EventLeq, Events(c));
    forall t ensures NetAt(e, t) == CountAt(c, t) {
      NetAtSort(Events(c), t);
      NetAtEvents(c, t);
    }
    if SweepAccepts(e) {
      forall t ensures CountAt(c, t) <= MAX_SIMULTANEOUS {
        var k := NetAtIsPrefix(e, t);
        assert NetAt(e, t) == CountAt(c, t);
      }
    }
    if NeverMoreThanTwo(c) {
      forall k: nat | k <= |e| ensures Total(e[..k]) <= MAX_SIMULTANEOUS {
        SweepPrefixBounded(c, e, k);
      }
    }
  }

  lemma {:induction false} SweepPrefixBounded(c: seq<Authorization>, e: seq<Event>, k: nat)
    requires Sorted(EventLeq, e) && k <= |e| && NeverMoreThanTwo(c)
    requires forall t :: NetAt(e, t) == CountAt(c, t)
    ensures Total(e[..k]) <= MAX_SIMULTANEOUS
  {
    if k > 0 {
      SweepPrefixBounded(c, e, k - 1);
      assert NetAt(e, e[k - 1].at) == CountAt(c, e[k - 1].at);
      if Total(e[..k]) > MAX_SIMULTANEOUS {
        OverBoundHasInstant(e, k - 1);
      }
    }
  }

  /** What the code decides about one principal, before it is read pointwise. */
  ghost predicate PrincipalSwept(s: seq<Authorization>, p: string)
  {
    OverlapsBounded(LiveOf(s, p)) && SweepAccepts(Timeline(LiveOf(s, p)))
  }

  /** The set a validated snapshot is kept in; renewal changes it in place. */
  class AuthorizationSet {
    var authorizations: seq<Authorization>

    constructor (s: seq<Authorization>)
      ensures authorizations == s
    {
      authorizations := s;
    }

    /** Accepts exactly the sets that meet the rule at every pair and every instant. */
    method Validate() returns (r: Result<(), SetError>)
      ensures r.Ok? <==> ValidSet(authorizations)
    {
      var ids: set<string> := {};
      for i := 0 to |authorizations|
        invariant ids == set j | 0 <= j < i :: authorizations[j].credentialId
        invariant forall j :: 0 <= j < i ==> ItemOk(authorizations[j])
        invariant forall j, k :: 0 <= j < k < i ==> authorizations[j].credentialId != authorizations[k].credentialId
      {
        var item := ValidateItem(authorizations[i]);
        if item.Err? {
          return Err(BadItem(item.error));
        }
        if authorizations[i].credentialId in ids {
          return Err(DuplicateCredential(authorizations[i].credentialId));
        }
        ids := ids + {authorizations[i].credentialId};
      }
      r := ValidateSet();
    }

    /**
     Principals in increasing order; a refusal names the first that breaks a
     rule, the overlap rule being checked before the simultaneity rule.
     */
    method ValidateSet() returns (r: Result<(), SetError>)
      ensures r.Ok? <==> forall p :: PrincipalSwept(authorizations, p)
      ensures ItemsOk(authorizations) ==> (r.Ok? <==> forall p :: PrincipalOk(authorizations, p))
      ensures r.Err? ==>
        && (r.error.OverlapTooLong? || r.error.TooManySimultaneous?)
        && (r.error.OverlapTooLong? <==> !OverlapsBounded(LiveOf(authorizations, r.error.principal)))
        && !PrincipalSwept(authorizations, r.error.principal)
        && forall p :: !PrincipalSwept(authorizations, p) ==> TextLeq(r.error.principal, p)
    {
      ghost var s := authorizations;
      assert ItemsOk(s) ==> forall p :: PrincipalSwept(s, p) <==> PrincipalOk(s, p) by {
        if ItemsOk(s) { SweptIsOkEverywhere(s); }
      }
      var left := set a | a in authorizations :: a.principalId;
      forall p | p !in left ensures PrincipalSwept(s, p) {
        AbsentPrincipalSwept(s, p);
      }
      while left != {}
        invariant forall p :: p !in left ==> PrincipalSwept(s, p)
        decreases left
      {
        var p := LeastText(left);
        var credentials := LiveOf(authorizations, p);
        var long := FindLongOverlap(credentials);
        if long {
          assert !PrincipalSwept(s, p);
          return Err(OverlapTooLong(p));
        }
        var fits := Sweep(Timeline(credentials));
        if !fits {
          assert !PrincipalSwept(s, p);
          return Err(TooManySimultaneous(p));
        }
        left := left - {p};
      }
      r := Ok(());
    }

    /** Renewal in place; a failed call may still have moved `validFrom`. */
    method RenewNative(credentialId: string, now: int) returns (r: Result<(), RenewError>)
      modifies this
      ensures (r, authorizations) == Renewed(old(authorizations), credentialId, now)
    {
      var k := FindId(authorizations, credentialId);
      if k == |authorizations| {
        return Err(NotFound);
      }
      var item := authorizations[k];
      if item.cls != Native || item.revoked || !IsActiveAt(item, now) {
        return Err(NotRenewable);
      }
      item := item.(validFrom := now);
      authorizations := authorizations[k := item];
      if now + NATIVE_LEASE_SECS > I64_MAX {
        return Err(TimestampOverflow);
      }
      authorizations := authorizations[k := item.(validUntil := now + NATIVE_LEASE_SECS)];
      assert authorizations == old(authorizations)[k := item.(validUntil := now + NATIVE_LEASE_SECS)];
      r := Ok(());
    }
  }

  method FindLongOverlap(c: seq<Authorization>) returns (found: bool)
    ensures found <==> !OverlapsBounded(c)
  {
    for i := 0 to |c|
      invariant forall k, l :: 0 <= k < i && k < l < |c| ==> Overlap(c[k], c[l]) <= MAX_OVERLAP_SECS
    {
      for j := i + 1 to |c|
        invariant forall l :: i < l < j ==> Overlap(c[i], c[l]) <= MAX_OVERLAP_SECS
      {
        if Overlap(c[i], c[j]) > MAX_OVERLAP_SECS {
          return true;
        }
      }
    }
    found := false;
  }

  method Sweep(e: seq<Event>) returns (fits: bool)
    ensures fits <==> SweepAccepts(e)
  {
    var active := 0;
    for k := 0 to |e|
      invariant active == Total(e[..k])
      invariant forall j :: 0 <= j <= k ==> Total(e[..j]) <= MAX_SIMULTANEOUS
    {
      active := active + e[k].delta;
      assert e[..k + 1][..k] == e[..k];
      if active > MAX_SIMULTANEOUS {
        return false;
      }
    }
    fits := true;
  }

  lemma AbsentPrincipalSwept(s: seq<Authorization>, p: string)
    requires p !in set a | a in s :: a.principalId
    ensures PrincipalSwept(s, p)
  {
    if LiveOf(s, p) != [] {
      var a := LiveOf(s, p)[0];
      LiveOfMembers(s, p, a);
      assert false;
    }
  }

  lemma SweptIsOkEverywhere(s: seq<Authorization>)
    requires ItemsOk(s)
    ensures forall p :: PrincipalSwept(s, p) <==> PrincipalOk(s, p)
  {
    forall p ensures PrincipalSwept(s, p) <==> PrincipalOk(s, p) {
      LiveOfOrdered(s, p);
      SweepIsPointwise(LiveOf(s, p));
    }
  }

  /** Index of the first item with this id, or the length. */
  function FindId(s: seq<Authorization>, id: string): (k: nat)
    ensures k <= |s| && (k < |s| ==> s[k].credentialId == id)
    ensures forall j :: 0 <= j < k ==> s[j].credentialId != id
  {
    if s == [] || s[0].credentialId == id then 0 else 1 + FindId(s[1..], id)
  }

  function Renewed(s: seq<Authorization>, id: string, now: int)
    : (Result<(), RenewError>, seq<Authorization>)
  {
    var k := FindId(s, id);
    if k == |s| then (Err(NotFound), s)
    else if s[k].cls != Native || s[k].revoked || !IsActiveAt(s[k], now) then (Err(NotRenewable), s)
    else if now + NATIVE_LEASE_SECS > I64_MAX then
      (Err(TimestampOverflow), s[k := s[k].(validFrom := now)])
    else (Ok(()), s[k := s[k].(validFrom := now, validUntil := now + NATIVE_LEASE_SECS)])
  }
}
