/**
 Snapshots of external authorizations: reading one with per-item quarantine,
 and the rule for adopting it over what is held
 (apps/provisioning-agent/src/external_authorization.rs).
 */
module ExternalSnapshots {
  import opened Prelude
  import opened Authorizations
  import opened AuthorizationViews

  const MAX_EXTERNAL_AUTHORIZATIONS := 4096

  /** One decoded item; a bound that is not a date is `None`. */
  datatype WireItem = WireItem(
    principalId: string, credentialId: string, cls: CredentialClass, routeId: string,
    validFrom: Option<int>, validUntil: Option<int>, revoked: bool,
    vlessUuid: Option<string>, hysteria2Password: Option<string>)

  /** A response after JSON decoding; an item that breaks the schema is `None`. */
  datatype Wire =
    | Versioned(version: nat, revision: nat, items: seq<Option<WireItem>>)
    | Legacy(legacyItems: seq<WireItem>)
    | Undecodable

  datatype Snapshot = Snapshot(desired: seq<Authorization>, revision: Option<nat>, quarantined: seq<string>)

  datatype SnapshotError =
    | BadResponse | UnsupportedVersion | TooManyItems | BadItemSchema | BadRoute | BadDate
    | BadSet(error: SetError) | NotCompatibility
    | StaleRevision | ContentChanged | SchemaDowngrade

  // ------------------------------------------------------------- reading

  predicate DatesOk(w: WireItem)
  {
    w.validFrom.Some? && w.validUntil.Some?
  }

  function Convert(w: WireItem): Authorization
    requires DatesOk(w)
  {
    Authorization(w.principalId, w.credentialId, w.cls, w.validFrom.value, w.validUntil.value, w.revoked,
                  w.vlessUuid, w.hysteria2Password)
  }

  /** Fit to be held: every value-level check passes. */
  predicate ItemFit(w: WireItem)
  {
    DatesOk(w) && ItemOk(Convert(w)) && w.cls == Compatibility
  }

  function QuarantineLabel(id: string): string
  {
    if "cred_" <= id && |id| <= 96 && (forall i :: 0 <= i < |id| ==> IdChar(id[i])) then id else "<unidentifiable>"
  }

  predicate ValidRouteId(id: string)
  {
    "route_" <= id && 7 <= |id| <= 96 && forall i :: 0 <= i < |id| ==> IdChar(id[i])
  }

  function FitItems(items: seq<WireItem>): seq<Authorization>
  {
    if items == [] then []
    else
      var last := items[|items| - 1];
      FitItems(items[..|items| - 1]) + (if ItemFit(last) then [Convert(last)] else [])
  }

  function UnfitLabels(items: seq<WireItem>): seq<string>
  {
    if items == [] then []
    else
      var last := items[|items| - 1];
      UnfitLabels(items[..|items| - 1]) + (if ItemFit(last) then [] else [QuarantineLabel(last.credentialId)])
  }

  function ConvertAll(items: seq<WireItem>): seq<Authorization>
    requires forall i :: 0 <= i < |items| ==> DatesOk(items[i])
  {
    seq(|items|, i requires 0 <= i < |items| => Convert(items[i]))
  }

  ghost predicate AllDecoded(items: seq<Option<WireItem>>)
  {
    forall i :: 0 <= i < |items| ==> items[i].Some?
  }

  function Decoded(items: seq<Option<WireItem>>): seq<WireItem>
    requires forall i :: 0 <= i < |items| ==> items[i].Some?
  {
    seq(|items|, i requires 0 <= i < |items| => items[i].value)
  }

  /** The snapshot a response stands for, if it stands for one. */
  ghost function Reading(w: Wire): Option<Snapshot>
  {
    match w
    case Undecodable => None
    case Versioned(version, revision, items) =>
      if version == 2 && |items| <= MAX_EXTERNAL_AUTHORIZATIONS && AllDecoded(items)
         && ValidSet(FitItems(Decoded(items)))
      then Some(Snapshot(FitItems(Decoded(items)), Some(revision), UnfitLabels(Decoded(items))))
      else None
    case Legacy(items) =>
      if |items| <= MAX_EXTERNAL_AUTHORIZATIONS
         && (forall i :: 0 <= i < |items| ==> ValidRouteId(items[i].routeId) && DatesOk(items[i]))
         && ValidSet(ConvertAll(items)) && AllCompatibility(ConvertAll(items))
      then Some(Snapshot(ConvertAll(items), None, []))
      else None
  }

  lemma {:induction false} FitItemsCounted(items: seq<WireItem>)
    ensures |FitItems(items)| + |UnfitLabels(items)| == |items| && AllCompatibility(FitItems(items))
  {
    if items != [] { FitItemsCounted(items[..|items| - 1]); }
  }

  // ------------------------------------------------ what is held of it

  /** The record says what the item says, field by field. */
  predicate SaysSame(a: Authorization, w: WireItem)
  {
    && a.principalId == w.principalId && a.credentialId == w.credentialId && a.cls == w.cls
    && w.validFrom == Some(a.validFrom) && w.validUntil == Some(a.validUntil) && a.revoked == w.revoked
    && a.vlessUuid == w.vlessUuid && a.hysteria2Password == w.hysteria2Password
  }

  /** The item passes every check there is for one item. */
  predicate Fit(w: WireItem)
  {
    && w.validFrom.Some? && w.validUntil.Some? && w.cls == Compatibility
    && "ext_" <= w.principalId && OpaqueShape(w.principalId)
    && "cred_" <= w.credentialId && OpaqueShape(w.credentialId)
    && -0x8000_0000_0000_0000 <= w.validUntil.value - w.validFrom.value < 0x8000_0000_0000_0000
    && (!w.revoked ==>
         && 0 < w.validUntil.value - w.validFrom.value <= 2592000
         && (w.vlessUuid.Some? || w.hysteria2Password.Some?)
         && (w.vlessUuid.Some? ==> ValidUuid(w.vlessUuid.value))
         && (w.hysteria2Password.Some? ==> ValidPassword(w.hysteria2Password.value)))
  }

  lemma FitIff(w: WireItem)
    ensures ItemFit(w) <==> Fit(w)
    ensures DatesOk(w) ==> SaysSame(Convert(w), w)
  {
    if DatesOk(w) { ItemOkIff(Convert(w)); }
  }

  /** The places, in order, of the fit items, or of the others. */
  ghost predicate Places(at: seq<nat>, items: seq<WireItem>, fit: bool)
  {
    && Increasing(at)
    && (forall k :: 0 <= k < |at| ==> at[k] < |items|)
    && forall i :: 0 <= i < |items| ==> (i in at <==> Fit(items[i]) == fit)
  }

  lemma PlacesGrow(at: seq<nat>, items: seq<WireItem>, fit: bool, w: WireItem)
    requires Places(at, items, fit)
    ensures Places(at + if Fit(w) == fit then [|items|] else [], items + [w], fit)
  {
    assert forall k :: 0 <= k < |at| ==> at[k] in at;
  }

  /** `held` says, in order and field by field, what the fit items say. */
  ghost predicate HoldsFit(held: seq<Authorization>, at: seq<nat>, items: seq<WireItem>)
  {
    Places(at, items, true) && |at| == |held|
    && forall k :: 0 <= k < |at| ==> SaysSame(held[k], items[at[k]])
  }

  /** `labels` are, in order, those of the unfit items. */
  ghost predicate LabelsUnfit(labels: seq<string>, at: seq<nat>, items: seq<WireItem>)
  {
    Places(at, items, false) && |at| == |labels|
    && forall k :: 0 <= k < |at| ==> labels[k] == QuarantineLabel(items[at[k]].credentialId)
  }

  /** A label is the id itself if it is one to print, as every id that can be held is, and never any other text. */
  lemma LabelMeans(id: string)
    ensures QuarantineLabel(id) == (if "cred_" <= id && !BadLabel(id) then id else "<unidentifiable>")
    ensures ValidCredentialId(id) ==> QuarantineLabel(id) == id
  {}

  predicate BadLabel(id: string)
  {
    |id| > 96 || exists i :: 0 <= i < |id| && !IdChar(id[i])
  }

  ghost function PlacesOf(items: seq<WireItem>, fit: bool): seq<nat>
  {
    if items == [] then []
    else
      var n := |items| - 1;
      PlacesOf(items[..n], fit) + if Fit(items[n]) == fit then [n] else []
  }

  lemma {:induction false} PlacesOfAre(items: seq<WireItem>, fit: bool)
    ensures Places(PlacesOf(items, fit), items, fit)
  {
    if items != [] {
      var n := |items| - 1;
      PlacesOfAre(items[..n], fit);
      PlacesGrow(PlacesOf(items[..n], fit), items[..n], fit, items[n]);
      assert items == items[..n] + [items[n]];
    }
  }

  lemma {:induction false} FitItemAt(items: seq<WireItem>, k: nat)
    ensures |FitItems(items)| == |PlacesOf(items, true)|
    ensures k < |FitItems(items)| ==>
              PlacesOf(items, true)[k] < |items| && SaysSame(FitItems(items)[k], items[PlacesOf(items, true)[k]])
  {
    if items != [] {
      var n := |items| - 1;
      FitItemAt(items[..n], k);
      FitIff(items[n]);
    }
  }

  lemma {:induction false} UnfitLabelAt(items: seq<WireItem>, k: nat)
    ensures |UnfitLabels(items)| == |PlacesOf(items, false)|
    ensures k < |UnfitLabels(items)| ==>
              && PlacesOf(items, false)[k] < |items|
              && UnfitLabels(items)[k] == QuarantineLabel(items[PlacesOf(items, false)[k]].credentialId)
  {
    if items != [] {
      var n := |items| - 1;
      UnfitLabelAt(items[..n], k);
      FitIff(items[n]);
    }
  }

  lemma FitItemsHold(items: seq<WireItem>) returns (at: seq<nat>)
    ensures HoldsFit(FitItems(items), at, items)
  {
    at := PlacesOf(items, true);
    PlacesOfAre(items, true);
    FitItemAt(items, 0);
    forall k | 0 <= k < |at| ensures SaysSame(FitItems(items)[k], items[at[k]]) { FitItemAt(items, k); }
  }

  lemma UnfitItemsLabelled(items: seq<WireItem>) returns (at: seq<nat>)
    ensures LabelsUnfit(UnfitLabels(items), at, items)
  {
    at := PlacesOf(items, false);
    PlacesOfAre(items, false);
    UnfitLabelAt(items, 0);
    forall k | 0 <= k < |at| ensures UnfitLabels(items)[k] == QuarantineLabel(items[at[k]].credentialId) {
      UnfitLabelAt(items, k);
    }
  }

  /** The items of a response that was read. */
  ghost function Sent(w: Wire): seq<WireItem>
    requires Reading(w).Some?
  {
    if w.Versioned? then Decoded(w.items) else w.legacyItems
  }

  lemma LegacyHolds(items: seq<WireItem>) returns (at: seq<nat>)
    requires Reading(Legacy(items)).Some?
    ensures HoldsFit(ConvertAll(items), at, items) && AllFit(items) && AllRouted(items)
  {
    forall i | 0 <= i < |items| ensures Fit(items[i]) && Routed(items[i]) {
      assert ConvertAll(items)[i] == Convert(items[i]);
      FitIff(items[i]);
    }
    at := AllFitHold(items);
  }

  /**
   Nothing slips through a reading, of either schema: what is held says, in
   order and field by field, what the fit items say and nothing else, it is a
   valid compatibility set, and every other item is quarantined by its label,
   of which the older schema has none.
   */
  lemma ReadingIsFailClosed(w: Wire) returns (held: seq<nat>, out: seq<nat>)
    requires Reading(w).Some?
    ensures var s := Reading(w).value;
            && ValidSet(s.desired) && AllCompatibility(s.desired) && |Sent(w)| <= 4096
            && HoldsFit(s.desired, held, Sent(w)) && LabelsUnfit(s.quarantined, out, Sent(w))
            && s.revision == (if w.Versioned? then Some(w.revision) else None)
            && (w.Legacy? ==> s.quarantined == [])
  {
    if w.Versioned? {
      FitItemsCounted(Decoded(w.items));
      held := FitItemsHold(Decoded(w.items));
      out := UnfitItemsLabelled(Decoded(w.items));
    } else {
      held := LegacyHolds(w.legacyItems);
      out := [];
    }
  }

  /** Only one list of records says what the fit items say. */
  lemma {:induction false} HoldsFitUnique(a: seq<Authorization>, at: seq<nat>, b: seq<Authorization>, bt: seq<nat>,
                                          items: seq<WireItem>)
    requires HoldsFit(a, at, items) && HoldsFit(b, bt, items)
    ensures a == b
  {
    IncreasingUnique(at, bt);
  }

  lemma {:induction false} IncreasingUnique(a: seq<nat>, b: seq<nat>)
    requires Increasing(a) && Increasing(b) && forall i :: i in a <==> i in b
    ensures a == b
  {
    assert b != [] ==> b[0] in b;
    if a != [] {
      assert a[0] in a;
      assert b[0] in a;
      var k :| 0 <= k < |b| && b[k] == a[0];
      var m :| 0 <= m < |a| && a[m] == b[0];
      assert a[0] == b[0];
      forall i ensures i in a[1..] <==> i in b[1..] {
        assert i in a <==> i in b;
        InTail(a, i);
        InTail(b, i);
      }
      IncreasingUnique(a[1..], b[1..]);
    }
  }

  lemma InTail(a: seq<nat>, i: nat)
    requires a != [] && Increasing(a)
    ensures i in a[1..] <==> i in a && i != a[0]
  {
    if i in a && i != a[0] {
      var k :| 0 <= k < |a| && a[k] == i;
      assert a[1..][k - 1] == i;
    }
  }

  /**
   A versioned response is read if and only if it is of version 2, small
   enough, wholly decoded, and the records of its fit items form a valid set;
   those are then held. One item too bad to decode refuses it, one that is
   merely unfit does not.
   */
  lemma VersionedReadIff(version: nat, revision: nat, items: seq<Option<WireItem>>,
                         s: seq<Authorization>, at: seq<nat>)
    requires AllDecoded(items) ==> HoldsFit(s, at, Decoded(items))
    ensures var r := Reading(Versioned(version, revision, items));
            && (r.Some? <==> version == 2 && |items| <= 4096 && AllDecoded(items) && ValidSet(s))
            && (r.Some? ==> r.value.desired == s)
  {
    if AllDecoded(items) {
      var bt := FitItemsHold(Decoded(items));
      HoldsFitUnique(s, at, FitItems(Decoded(items)), bt, Decoded(items));
    }
  }

  /** One of the older schema is read if and only if every item is fit and routed and together they are a valid set. */
  lemma LegacyReadIff(items: seq<WireItem>, s: seq<Authorization>, at: seq<nat>)
    requires HoldsFit(s, at, items)
    ensures Reading(Legacy(items)).Some? <==> |items| <= 4096 && AllFit(items) && AllRouted(items) && ValidSet(s)
    ensures Reading(Legacy(items)).Some? ==> Reading(Legacy(items)).value.desired == s
  {
    if Reading(Legacy(items)).Some? {
      var bt := LegacyHolds(items);
      HoldsFitUnique(s, at, ConvertAll(items), bt, items);
    } else if AllFit(items) {
      var bt := AllFitHold(items);
      HoldsFitUnique(s, at, ConvertAll(items), bt, items);
    }
  }

  ghost predicate AllFit(items: seq<WireItem>)
  {
    forall i :: 0 <= i < |items| ==> Fit(items[i]) && DatesOk(items[i])
  }

  ghost predicate AllRouted(items: seq<WireItem>)
  {
    forall i :: 0 <= i < |items| ==> Routed(items[i])
  }

  lemma AllFitHold(items: seq<WireItem>) returns (at: seq<nat>)
    requires AllFit(items)
    ensures HoldsFit(ConvertAll(items), at, items) && AllCompatibility(ConvertAll(items))
  {
    at := seq(|items|, i requires 0 <= i < |items| => i);
    forall i | 0 <= i < |items| ensures at[i] == i && SaysSame(ConvertAll(items)[i], items[i]) {
      FitIff(items[i]);
    }
    assert forall i :: 0 <= i < |items| ==> at[i] in at;
  }

  predicate Routed(w: WireItem)
  {
    "route_" <= w.routeId && 7 <= |w.routeId| <= 96 && forall i :: 0 <= i < |w.routeId| ==> IdChar(w.routeId[i])
  }

  /**
   A credential of a response that was read is granted at an instant if and
   only if a fit item names it, not as revoked, with the instant between its
   bounds.
   */
  lemma GrantedIff(w: Wire, t: int, id: string)
    requires Reading(w).Some?
    ensures GrantsId(Reading(w).value.desired, id, t) <==> NamedAt(Sent(w), id, t)
  {
    var at, out := ReadingIsFailClosed(w);
    HeldGrantsIff(Reading(w).value.desired, at, Sent(w), id, t);
  }

  ghost predicate GrantsId(s: seq<Authorization>, id: string, t: int)
  {
    exists a :: a in Granted(s, t) && a.credentialId == id
  }

  ghost predicate NamedAt(items: seq<WireItem>, id: string, t: int)
  {
    exists i :: 0 <= i < |items| && Fit(items[i]) && Names(items[i], id, t)
  }

  predicate Names(w: WireItem, id: string, t: int)
    requires w.validFrom.Some? && w.validUntil.Some?
  {
    w.credentialId == id && !w.revoked && w.validFrom.value <= t < w.validUntil.value
  }

  lemma NamedIfGranted(a: Authorization, w: WireItem, id: string, t: int)
    requires SaysSame(a, w)
    ensures IsActiveAt(a, t) && a.credentialId == id <==> Names(w, id, t)
  {}

  lemma HeldGrantsIff(s: seq<Authorization>, at: seq<nat>, items: seq<WireItem>, id: string, t: int)
    requires HoldsFit(s, at, items)
    ensures GrantsId(s, id, t) <==> NamedAt(items, id, t)
  {
    if GrantsId(s, id, t) {
      var a :| a in Granted(s, t) && a.credentialId == id;
      var k :| 0 <= k < |s| && s[k] == a;
      assert at[k] in at;
      NamedIfGranted(s[k], items[at[k]], id, t);
    }
    if NamedAt(items, id, t) {
      var i :| 0 <= i < |items| && Fit(items[i]) && Names(items[i], id, t);
      assert i in at;
      var k :| 0 <= k < |at| && at[k] == i;
      NamedIfGranted(s[k], items[i], id, t);
      assert s[k] in Granted(s, t);
    }
  }

  /** So a fit item sent as revoked takes its credential away at every instant. */
  lemma RevokedIsNeverGranted(w: Wire, i: nat, t: int)
    requires Reading(w).Some? && i < |Sent(w)| && Fit(Sent(w)[i]) && Sent(w)[i].revoked
    ensures !GrantsId(Reading(w).value.desired, Sent(w)[i].credentialId, t)
  {
    var at, out := ReadingIsFailClosed(w);
    assert i in at;
    var k :| 0 <= k < |at| && at[k] == i;
    OnlyItsRecord(Reading(w).value.desired, k, t);
  }

  lemma OnlyItsRecord(s: seq<Authorization>, k: nat, t: int)
    requires DistinctIds(s) && k < |s| && s[k].revoked
    ensures !GrantsId(s, s[k].credentialId, t)
  {
    forall a | a in Granted(s, t) ensures a.credentialId != s[k].credentialId {
      var m :| 0 <= m < |s| && s[m] == a;
      if m != k { assert s[Min(m, k)].credentialId != s[Max(m, k)].credentialId; }
    }
  }

  lemma ReadingValid(w: Wire)
    requires Reading(w).Some?
    ensures ValidSet(Reading(w).value.desired)
  {}

  method ReadSnapshot(w: Wire) returns (r: Result<Snapshot, SnapshotError>)
    ensures r.Ok? <==> Reading(w).Some?
    ensures r.Ok? ==> r.value == Reading(w).value
  {
    match w
    case Undecodable => r := Err(BadResponse);
    case Versioned(version, revision, items) => r := ReadVersioned(version, revision, items);
    case Legacy(items) => r := ReadLegacy(items);
  }

  method ReadVersioned(version: nat, revision: nat, items: seq<Option<WireItem>>)
    returns (r: Result<Snapshot, SnapshotError>)
    ensures r.Ok? <==> Reading(Versioned(version, revision, items)).Some?
    ensures r.Ok? ==> r.value == Reading(Versioned(version, revision, items)).value
  {
    if version != 2 {
      return Err(UnsupportedVersion);
    }
    if |items| > MAX_EXTERNAL_AUTHORIZATIONS {
      return Err(TooManyItems);
    }
    var held, quarantined := [], [];
    for i := 0 to |items|
      invariant forall j :: 0 <= j < i ==> items[j].Some?
      invariant held == FitItems(Decoded(items[..i])) && quarantined == UnfitLabels(Decoded(items[..i]))
    {
      if items[i].None? {
        return Err(BadItemSchema);
      }
      var item := items[i].value;
      OneMore(items, i);
      if ItemFit(item) {
        held := held + [Convert(item)];
      } else {
        quarantined := quarantined + [QuarantineLabel(item.credentialId)];
      }
    }
    assert items[..|items|] == items;
    FitItemsCounted(Decoded(items));
    var checked := CheckExternalSet(held);
    if checked.Err? {
      return Err(checked.error);
    }
    r := Ok(Snapshot(held, Some(revision), quarantined));
  }

  lemma OneMore(items: seq<Option<WireItem>>, i: nat)
    requires i < |items| && forall j :: 0 <= j <= i ==> items[j].Some?
    ensures var before, item := Decoded(items[..i]), items[i].value;
            var after := Decoded(items[..i + 1]);
            && FitItems(after) == FitItems(before) + (if ItemFit(item) then [Convert(item)] else [])
            && UnfitLabels(after)
            == UnfitLabels(before) + (if ItemFit(item) then [] else [QuarantineLabel(item.credentialId)])
  {
    assert Decoded(items[..i + 1])[..i] == Decoded(items[..i]);
  }

  method ReadLegacy(items: seq<WireItem>) returns (r: Result<Snapshot, SnapshotError>)
    ensures r.Ok? <==> Reading(Legacy(items)).Some?
    ensures r.Ok? ==> r.value == Reading(Legacy(items)).value
  {
    if |items| > MAX_EXTERNAL_AUTHORIZATIONS {
      return Err(TooManyItems);
    }
    var held := [];
    for i := 0 to |items|
      invariant forall j :: 0 <= j < i ==> ValidRouteId(items[j].routeId) && DatesOk(items[j])
      invariant held == ConvertAll(items[..i])
    {
      if !ValidRouteId(items[i].routeId) {
        return Err(BadRoute);
      }
      if !DatesOk(items[i]) {
        return Err(BadDate);
      }
      held := held + [Convert(items[i])];
      assert items[..i + 1] == items[..i] + [items[i]];
    }
    assert items[..|items|] == items;
    var checked := CheckExternalSet(held);
    if checked.Err? {
      return Err(checked.error);
    }
    r := Ok(Snapshot(held, None, []));
  }

  method CheckExternalSet(s: seq<Authorization>) returns (r: Result<(), SnapshotError>)
    ensures r.Ok? <==> |s| <= MAX_EXTERNAL_AUTHORIZATIONS && ValidSet(s) && AllCompatibility(s)
  {
    if |s| > MAX_EXTERNAL_AUTHORIZATIONS {
      return Err(TooManyItems);
    }
    var authorizations := new AuthorizationSet(s);
    var valid := authorizations.Validate();
    if valid.Err? {
      return Err(BadSet(valid.error));
    }
    if exists i :: 0 <= i < |s| && s[i].cls != Compatibility {
      return Err(NotCompatibility);
    }
    r := Ok(());
  }

  // ------------------------------------------------------------ adopting

  datatype Held = Held(
    desired: seq<Authorization>, revision: Option<nat>, applied: Option<nat>, acknowledged: Option<nat>)

  predicate SameIdentity(a: Authorization, b: Authorization)
  {
    a.principalId == b.principalId && a.credentialId == b.credentialId
  }

  function FindSame(s: seq<Authorization>, a: Authorization): Option<Authorization>
  {
    if s == [] then None else if SameIdentity(s[0], a) then Some(s[0]) else FindSame(s[1..], a)
  }

  /** `next` only takes away: newly revoked, or dropped because it was quarantined. */
  predicate OnlyTightens(current: seq<Authorization>, next: seq<Authorization>, quarantined: seq<string>)
  {
    && (forall h :: h in current ==> FindSame(next, h).Some? || h.credentialId in quarantined)
    && (forall x :: x in next ==>
         var held := FindSame(current, x);
         held.Some? && !(held.value.revoked && !x.revoked) && x.(revoked := held.value.revoked) == held.value)
  }

  function Adopted(state: Held, next: Snapshot): Result<(Held, bool), SnapshotError>
  {
    var changed := next.desired != state.desired;
    if state.revision.Some? && next.revision.Some? && next.revision.value < state.revision.value then Err(StaleRevision)
    else if state.revision.Some? && next.revision == state.revision && changed
            && !OnlyTightens(state.desired, next.desired, next.quarantined) then Err(ContentChanged)
    else if state.revision.Some? && next.revision.None? then Err(SchemaDowngrade)
    else if changed || next.revision != state.revision then Ok((Held(next.desired, next.revision, None, None), true))
    else Ok((state, false))
  }

  /** Everything one set grants at any instant the other grants too. */
  ghost predicate GrantsNoMore(a: seq<Authorization>, b: seq<Authorization>)
  {
    forall t :: Granted(a, t) <= Granted(b, t)
  }

  lemma {:induction false} FindSameIn(s: seq<Authorization>, a: Authorization)
    ensures FindSame(s, a).Some? ==> FindSame(s, a).value in s && SameIdentity(FindSame(s, a).value, a)
    ensures FindSame(s, a).None? ==> forall x :: x in s ==> !SameIdentity(x, a)
  {
    if s != [] {
      FindSameIn(s[1..], a);
      assert s == [s[0]] + s[1..];
    }
  }

  /**
   The same-revision rule, for a held set with unique ids: each incoming
   credential is one that is held, or a held one newly revoked, and nothing
   held goes missing unless it was quarantined.
   */
  lemma TighteningMeaning(current: seq<Authorization>, next: seq<Authorization>, quarantined: seq<string>)
    requires DistinctIds(current)
    ensures OnlyTightens(current, next, quarantined) <==>
            && (forall x :: x in next ==> x in current || (x.revoked && x.(revoked := false) in current))
            && (forall h :: h in current ==>
                 (exists x :: x in next && SameIdentity(x, h)) || h.credentialId in quarantined)
  {
    forall h ensures FindSame(next, h).Some? <==> exists x :: x in next && SameIdentity(x, h) {
      FindSameIn(next, h);
    }
    forall x
      ensures (FindSame(current, x).Some? && !(FindSame(current, x).value.revoked && !x.revoked)
               && x.(revoked := FindSame(current, x).value.revoked) == FindSame(current, x).value)
         <==> x in current || (x.revoked && x.(revoked := false) in current)
    {
      FindSameIn(current, x);
      if x in current { assert SameIdentity(x, x); }
      if x.(revoked := false) in current { assert SameIdentity(x.(revoked := false), x); }
    }
  }

  /** A tightening grants no credential, at any instant, that was not granted before. */
  lemma TighteningGrantsNoMore(current: seq<Authorization>, next: seq<Authorization>, quarantined: seq<string>)
    requires OnlyTightens(current, next, quarantined)
    ensures GrantsNoMore(next, current)
  {
    forall t, x | x in Granted(next, t) ensures x in Granted(current, t) {
      FindSameIn(current, x);
      assert x == FindSame(current, x).value;
    }
  }

  /** What an accepted snapshot may do to what is held. */
  ghost predicate Advances(a: Held, b: Held)
  {
    a.revision.Some? ==>
      && b.revision.Some? && a.revision.value <= b.revision.value
      && (a.revision == b.revision ==> GrantsNoMore(b.desired, a.desired))
  }

  /**
   A snapshot is accepted if and only if nothing versioned is held, or it is
   newer, or it only tightens the revision held. Once accepted it is what is
   held, anything new in it is neither applied nor acknowledged, and what was
   held has advanced.
   */
  lemma AdoptionAdvances(state: Held, next: Snapshot)
    ensures Adopted(state, next).Ok? <==>
            || state.revision.None?
            || (next.revision.Some? && next.revision.value > state.revision.value)
            || (next.revision == state.revision
                && (next.desired == state.desired || OnlyTightens(state.desired, next.desired, next.quarantined)))
    ensures Adopted(state, next).Ok? ==>
            var h := Adopted(state, next).value.0;
            && h.desired == next.desired && h.revision == next.revision && Advances(state, h)
            && (h == state || (h.applied.None? && h.acknowledged.None?))
  {
    if Adopted(state, next).Ok? && state.revision.Some? && next.revision == state.revision
       && next.desired != state.desired {
      TighteningGrantsNoMore(state.desired, next.desired, next.quarantined);
    }
  }

  lemma AdvancesTransitive(a: Held, b: Held, c: Held)
    requires Advances(a, b) && Advances(b, c)
    ensures Advances(a, c)
  {
    if a.revision.Some? && a.revision == c.revision {
      forall t ensures Granted(c.desired, t) <= Granted(a.desired, t) {
        assert Granted(c.desired, t) <= Granted(b.desired, t) && Granted(b.desired, t) <= Granted(a.desired, t);
      }
    }
  }
}
