/**
 What makes a set of authorizations acceptable, said of its records and not of
 the sweep that decides it.
 */
module SetRules {
  import opened Authorizations

  /** The credential counts for `p`. */
  predicate CountsFor(a: Authorization, p: string)
  {
    a.principalId == p && !a.revoked
  }

  /** It counts for `p` and holds the instant `t`. */
  predicate HoldsAt(a: Authorization, p: string, t: int)
  {
    CountsFor(a, p) && a.validFrom <= t < a.validUntil
  }

  // ----------------------------------------------------- at most two at once

  predicate One(h: seq<bool>)
  {
    exists i :: 0 <= i < |h| && h[i]
  }

  predicate Two(h: seq<bool>)
  {
    exists i, j :: 0 <= i < j < |h| && h[i] && h[j]
  }

  predicate Trio(h: seq<bool>, i: int, j: int, k: int)
  {
    0 <= i < j < k < |h| && h[i] && h[j] && h[k]
  }

  ghost predicate Three(h: seq<bool>)
  {
    exists i, j, k :: Trio(h, i, j, k)
  }

  lemma OneMore(h: seq<bool>)
    requires h != []
    ensures One(h) <==> h[0] || One(h[1..])
  {
    var rest := h[1..];
    if One(rest) {
      var i :| 0 <= i < |rest| && rest[i];
      assert h[i + 1];
    }
    if One(h) && !h[0] {
      var i :| 0 <= i < |h| && h[i];
      assert rest[i - 1];
    }
  }

  lemma TwoMore(h: seq<bool>)
    requires h != []
    ensures Two(h) <==> (h[0] && One(h[1..])) || Two(h[1..])
  {
    var rest := h[1..];
    if h[0] && One(rest) {
      var j :| 0 <= j < |rest| && rest[j];
      assert h[0] && h[j + 1];
    }
    if Two(rest) {
      var i, j :| 0 <= i < j < |rest| && rest[i] && rest[j];
      assert h[i + 1] && h[j + 1];
    }
    if Two(h) {
      var i, j :| 0 <= i < j < |h| && h[i] && h[j];
      assert rest[j - 1];
      if i > 0 { assert rest[i - 1]; }
    }
  }

  lemma ThreeMore(h: seq<bool>)
    requires h != []
    ensures Three(h) <==> (h[0] && Two(h[1..])) || Three(h[1..])
  {
    var rest := h[1..];
    if h[0] && Two(rest) {
      var j, k :| 0 <= j < k < |rest| && rest[j] && rest[k];
      assert Trio(h, 0, j + 1, k + 1);
    }
    if Three(rest) {
      var i, j, k :| Trio(rest, i, j, k);
      assert Trio(h, i + 1, j + 1, k + 1);
    }
    if Three(h) {
      var i, j, k :| Trio(h, i, j, k);
      if i > 0 { assert Trio(rest, i - 1, j - 1, k - 1); } else { assert rest[j - 1] && rest[k - 1]; }
    }
  }

  function Holding(s: seq<Authorization>, p: string, t: int): seq<bool>
  {
    seq(|s|, i requires 0 <= i < |s| => HoldsAt(s[i], p, t))
  }

  lemma CountStep(s: seq<Authorization>, p: string, t: int)
    requires s != []
    ensures CountAt(LiveOf(s, p), t)
         == (if HoldsAt(s[0], p, t) then 1 else 0) + CountAt(LiveOf(s[1..], p), t)
  {
    var rest := LiveOf(s[1..], p);
    if CountsFor(s[0], p) { assert ([s[0]] + rest)[1..] == rest; } else { assert [] + rest == rest; }
  }

  lemma {:induction false} CountIff(s: seq<Authorization>, p: string, t: int)
    ensures CountAt(LiveOf(s, p), t) >= 1 <==> One(Holding(s, p, t))
    ensures CountAt(LiveOf(s, p), t) >= 2 <==> Two(Holding(s, p, t))
    ensures CountAt(LiveOf(s, p), t) >= 3 <==> Three(Holding(s, p, t))
  {
    if s != [] {
      var h := Holding(s, p, t);
      CountIff(s[1..], p, t);
      CountStep(s, p, t);
      assert h[1..] == Holding(s[1..], p, t);
      OneMore(h);
      TwoMore(h);
      ThreeMore(h);
    }
  }

  /** These three credentials count for `p` and hold the instant `t`. */
  predicate HoldTogether(s: seq<Authorization>, p: string, t: int, i: int, j: int, k: int)
  {
    0 <= i < j < k < |s| && HoldsAt(s[i], p, t) && HoldsAt(s[j], p, t) && HoldsAt(s[k], p, t)
  }

  ghost predicate ThreeHold(s: seq<Authorization>, p: string, t: int)
  {
    exists i, j, k :: HoldTogether(s, p, t, i, j, k)
  }

  lemma ThreeHoldIff(s: seq<Authorization>, p: string, t: int)
    ensures CountAt(LiveOf(s, p), t) > MAX_SIMULTANEOUS <==> ThreeHold(s, p, t)
  {
    var h := Holding(s, p, t);
    CountIff(s, p, t);
    if Three(h) {
      var i, j, k :| Trio(h, i, j, k);
      assert HoldTogether(s, p, t, i, j, k);
    }
    if ThreeHold(s, p, t) {
      var i, j, k :| HoldTogether(s, p, t, i, j, k);
      assert Trio(h, i, j, k);
    }
  }

  // ------------------------------------------------------ 48 hours together

  /** The time both hold is at most 48 hours. */
  predicate ShortlyTogether(a: Authorization, b: Authorization)
  {
    || a.validUntil - a.validFrom <= 172800 || b.validUntil - b.validFrom <= 172800
    || a.validUntil - b.validFrom <= 172800 || b.validUntil - a.validFrom <= 172800
  }

  lemma OverlapIff(a: Authorization, b: Authorization)
    ensures Overlap(a, b) <= MAX_OVERLAP_SECS <==> ShortlyTogether(a, b)
  {}

  /** No two credentials that count for `p` are together for longer. */
  ghost predicate PairsApart(s: seq<Authorization>, p: string)
  {
    forall i, j :: 0 <= i < j < |s| && CountsFor(s[i], p) && CountsFor(s[j], p) ==> ShortlyTogether(s[i], s[j])
  }

  ghost predicate ApartFrom(a: Authorization, s: seq<Authorization>, p: string)
  {
    forall x :: x in s && CountsFor(x, p) ==> ShortlyTogether(a, x)
  }

  lemma PairsMore(s: seq<Authorization>, p: string)
    requires s != []
    ensures PairsApart(s, p) <==> PairsApart(s[1..], p) && (CountsFor(s[0], p) ==> ApartFrom(s[0], s[1..], p))
  {
    var rest := s[1..];
    if PairsApart(s, p) {
      forall i, j | 0 <= i < j < |rest| && CountsFor(rest[i], p) && CountsFor(rest[j], p)
        ensures ShortlyTogether(rest[i], rest[j])
      {
        assert rest[i] == s[i + 1] && rest[j] == s[j + 1];
      }
      forall x | x in rest && CountsFor(x, p) && CountsFor(s[0], p) ensures ShortlyTogether(s[0], x) {
        var i :| 0 <= i < |rest| && rest[i] == x;
        assert s[i + 1] == x;
      }
    }
    if PairsApart(rest, p) && (CountsFor(s[0], p) ==> ApartFrom(s[0], rest, p)) {
      forall i, j | 0 <= i < j < |s| && CountsFor(s[i], p) && CountsFor(s[j], p) ensures ShortlyTogether(s[i], s[j]) {
        assert rest[j - 1] == s[j] && rest[j - 1] in rest;
        if i > 0 { assert rest[i - 1] == s[i]; }
      }
    }
  }

  lemma BoundedMore(a: Authorization, c: seq<Authorization>)
    ensures OverlapsBounded([a] + c) <==>
            OverlapsBounded(c) && forall x :: x in c ==> Overlap(a, x) <= MAX_OVERLAP_SECS
  {
    var all := [a] + c;
    if OverlapsBounded(all) {
      forall i, j | 0 <= i < j < |c| ensures Overlap(c[i], c[j]) <= MAX_OVERLAP_SECS {
        assert all[i + 1] == c[i] && all[j + 1] == c[j];
      }
      forall x | x in c ensures Overlap(a, x) <= MAX_OVERLAP_SECS {
        var i :| 0 <= i < |c| && c[i] == x;
        assert all[0] == a && all[i + 1] == x;
      }
    }
    if OverlapsBounded(c) && forall x :: x in c ==> Overlap(a, x) <= MAX_OVERLAP_SECS {
      forall i, j | 0 <= i < j < |all| ensures Overlap(all[i], all[j]) <= MAX_OVERLAP_SECS {
        assert all[j] == c[j - 1] && all[j] in c;
        if i > 0 { assert all[i] == c[i - 1]; }
      }
    }
  }

  lemma {:induction false} PairsIff(s: seq<Authorization>, p: string)
    ensures OverlapsBounded(LiveOf(s, p)) <==> PairsApart(s, p)
  {
    if s != [] {
      var c := LiveOf(s[1..], p);
      PairsIff(s[1..], p);
      PairsMore(s, p);
      if CountsFor(s[0], p) {
        BoundedMore(s[0], c);
        ApartIff(s[0], s[1..], p);
      } else {
        assert [] + c == c;
      }
    }
  }

  lemma ApartIff(a: Authorization, s: seq<Authorization>, p: string)
    ensures ApartFrom(a, s, p) <==> forall x :: x in LiveOf(s, p) ==> Overlap(a, x) <= MAX_OVERLAP_SECS
  {
    forall x ensures x in LiveOf(s, p) <==> x in s && CountsFor(x, p) { LiveOfMembers(s, p, x); }
    forall x ensures Overlap(a, x) <= MAX_OVERLAP_SECS <==> ShortlyTogether(a, x) { OverlapIff(a, x); }
  }

  /**
   A set is accepted if and only if every record is, no credential id comes
   twice, no two credentials of a principal that are not revoked are together
   for more than 48 hours, and no three of them hold one instant.
   */
  lemma ValidSetIff(s: seq<Authorization>)
    ensures ValidSet(s) <==>
            && (forall i :: 0 <= i < |s| ==> ItemOk(s[i]))
            && (forall i, j :: 0 <= i < j < |s| ==> s[i].credentialId != s[j].credentialId)
            && (forall p :: PairsApart(s, p)) && forall p, t :: !ThreeHold(s, p, t)
  {
    forall p ensures PrincipalOk(s, p) <==> PairsApart(s, p) && NeverThree(s, p) { PrincipalOkIff(s, p); }
    if ValidSet(s) {
      forall p, t ensures !ThreeHold(s, p, t) { assert PrincipalOk(s, p) && NeverThree(s, p); }
      forall p ensures PairsApart(s, p) { assert PrincipalOk(s, p); }
    }
  }

  ghost predicate NeverThree(s: seq<Authorization>, p: string)
  {
    forall t :: !ThreeHold(s, p, t)
  }

  lemma PrincipalOkIff(s: seq<Authorization>, p: string)
    ensures PrincipalOk(s, p) <==> PairsApart(s, p) && NeverThree(s, p)
  {
    PairsIff(s, p);
    forall t ensures CountAt(LiveOf(s, p), t) > MAX_SIMULTANEOUS <==> ThreeHold(s, p, t) { ThreeHoldIff(s, p, t); }
  }
}
