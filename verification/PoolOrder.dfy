/**
 The order of pools by what their slots carry: the same generations,
 credentials and bounds, or strictly earlier ones; and where a live pool can
 stand to the pool on file and the one before it.
 */
module PoolOrder {
  import opened LeaseSlots
  import opened LeasePools
  import opened LeaseDurability

  /** Same generations, credentials and bounds, slot for slot. */
  predicate SamePool(a: seq<Slot>, b: seq<Slot>)
  {
    |a| == |b| && forall i :: 0 <= i < |a| ==> SameLease(a[i], b[i])
  }

  predicate EarlierPool(a: seq<Slot>, b: seq<Slot>)
  {
    && |a| <= |b| && (forall i :: 0 <= i < |a| ==> NotLater(a[i], b[i]))
    && (|a| < |b| || exists i :: 0 <= i < |a| && Earlier(a[i], b[i]))
  }

  lemma EarlierThenSame(a: seq<Slot>, b: seq<Slot>, c: seq<Slot>)
    requires EarlierPool(a, b) && SamePool(b, c)
    ensures EarlierPool(a, c)
  {
    if |a| == |b| {
      var i :| 0 <= i < |a| && Earlier(a[i], b[i]);
      assert SameLease(b[i], c[i]) && Earlier(a[i], c[i]);
    }
  }

  lemma SameThenEarlier(a: seq<Slot>, b: seq<Slot>, c: seq<Slot>)
    requires SamePool(a, b) && EarlierPool(b, c)
    ensures EarlierPool(a, c)
  {
    if |b| == |c| {
      var i :| 0 <= i < |b| && Earlier(b[i], c[i]);
      assert SameLease(a[i], b[i]) && Earlier(a[i], c[i]);
    }
  }

  lemma EarlierTransitive(a: seq<Slot>, b: seq<Slot>, c: seq<Slot>)
    requires EarlierPool(a, b) && EarlierPool(b, c)
    ensures EarlierPool(a, c)
  {
    if |a| == |c| {
      var i :| 0 <= i < |a| && Earlier(a[i], b[i]);
      assert NotLater(b[i], c[i]) && Earlier(a[i], c[i]);
    }
  }

  lemma EarlierIsNotSame(a: seq<Slot>, b: seq<Slot>)
    requires EarlierPool(a, b)
    ensures !SamePool(a, b)
  {
    if |a| == |b| {
      var i :| 0 <= i < |a| && Earlier(a[i], b[i]);
      assert !SameLease(a[i], b[i]);
    }
  }

  lemma LaterIsNotSame(a: seq<Slot>, b: seq<Slot>)
    requires EarlierPool(b, a)
    ensures !SamePool(a, b)
  {
    if |a| == |b| {
      var i :| 0 <= i < |b| && Earlier(b[i], a[i]);
      assert !SameLease(a[i], b[i]);
    }
  }

  lemma NotLaterThenSame(a: seq<Slot>, b: seq<Slot>, c: seq<Slot>)
    requires (SamePool(a, b) || EarlierPool(a, b)) && SamePool(b, c)
    ensures SamePool(a, c) || EarlierPool(a, c)
  {
    if EarlierPool(a, b) { EarlierThenSame(a, b, c); }
  }

  lemma SameSelf(slots: seq<Slot>)
    ensures SamePool(slots, slots)
  {}

  lemma OutdatedIsEarlier(n: Node)
    requires FileNotAhead(n) && FileOutdated(n)
    ensures EarlierPool(n.disk.slots, n.state.slots)
  {}

  lemma HeldIsSame(n: Node)
    requires FileHoldsPool(n)
    ensures SamePool(n.disk.slots, n.state.slots) && SamePool(n.state.slots, n.disk.slots)
  {
    forall i | 0 <= i < |n.disk.slots| ensures SameLease(n.state.slots[i], n.disk.slots[i]) {
      assert SameLease(n.disk.slots[i], n.state.slots[i]);
    }
  }

  /** What a lag says of the pool in force, the one before the last change and the one on file. */
  predicate LagMeaning(lag: nat, live: seq<Slot>, before: seq<Slot>, file: seq<Slot>)
  {
    if lag == 0 then SamePool(live, file)
    else EarlierPool(before, file) && if lag == 1 then SamePool(live, before) else EarlierPool(live, before)
  }

  lemma LagGrows(lag: nat, live: seq<Slot>, before: seq<Slot>, file: seq<Slot>, next: seq<Slot>)
    requires LagMeaning(lag, live, before, file)
    ensures EarlierPool(file, next) ==> LagMeaning(lag + 1, live, file, next)
    ensures SamePool(file, next) ==> LagMeaning(lag, live, before, next)
  {
    if lag == 1 { SameThenEarlier(live, before, file); }
    if lag >= 2 { EarlierTransitive(live, before, file); }
    if lag >= 1 && SamePool(file, next) { EarlierThenSame(before, file, next); }
  }

  /** The live pool is one the file has passed over. */
  predicate PassedOver(live: seq<Slot>, before: seq<Slot>, file: seq<Slot>)
  {
    EarlierPool(live, file) && (EarlierPool(before, live) || EarlierPool(live, before))
  }

  lemma LagDecides(lag: nat, live: seq<Slot>, before: seq<Slot>, file: seq<Slot>)
    requires LagMeaning(lag, live, before, file)
    ensures SamePool(live, file) <==> lag == 0
    ensures SamePool(live, file) || SamePool(live, before) <==> lag <= 1
  {
    if lag == 1 {
      SameThenEarlier(live, before, file);
      EarlierIsNotSame(live, file);
    } else if lag >= 2 {
      EarlierTransitive(live, before, file);
      EarlierIsNotSame(live, file);
      EarlierIsNotSame(live, before);
    }
  }

  lemma OffFileDecides(live: seq<Slot>, before: seq<Slot>, file: seq<Slot>)
    requires EarlierPool(file, live) || PassedOver(live, before, file)
    requires EarlierPool(file, live) ==> SamePool(before, file) || EarlierPool(before, file)
    ensures !SamePool(live, file) && !SamePool(live, before)
  {
    if EarlierPool(file, live) {
      if SamePool(before, file) { SameThenEarlier(before, file, live); } else { EarlierTransitive(before, file, live); }
      LaterIsNotSame(live, file);
      LaterIsNotSame(live, before);
    } else {
      EarlierIsNotSame(live, file);
      if EarlierPool(before, live) { LaterIsNotSame(live, before); } else { EarlierIsNotSame(live, before); }
    }
  }
}
