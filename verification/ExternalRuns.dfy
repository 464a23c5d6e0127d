/**
 Whole runs of the external reconciler: snapshots in any order, failures,
 crashes and restarts.
 */
module ExternalRuns {
  import opened Prelude
  import opened Authorizations
  import opened AuthorizationViews
  import opened ExternalSnapshots
  import opened ExternalReconcilers

  datatype Run = Run(nodes: seq<Node>, steps: seq<Step>)

  predicate AckConsistent(h: Held)
  {
    h.acknowledged.Some? ==> h.acknowledged == h.applied == h.revision
  }

  ghost predicate Start(n: Node)
  {
    && n.state == n.disk && ValidSet(n.disk.desired) && AckConsistent(n.disk)
    && n.fingerprint.None? && !n.appliedHere && n.etag.None? && n.quarantined == []
    && n.lastApply.None? && !n.fetchedHere
  }

  ghost predicate Valid(r: Run)
  {
    && |r.nodes| == |r.steps| + 1
    && Start(r.nodes[0])
    && forall i :: 0 <= i < |r.steps| ==>
         Enabled(r.nodes[i], r.steps[i]) && r.nodes[i + 1] == Next(r.nodes[i], r.steps[i])
  }

  predicate Saves(step: Step)
  {
    match step
    case Fetch(_, saved) => saved
    case ApplySucceeds(_, saved) => saved
    case AckSucceeds(_, saved) => saved
    case _ => true
  }

  ghost predicate Durable(r: Run)
  {
    forall i :: 0 <= i < |r.steps| ==> Saves(r.steps[i])
  }

  /** What this process has applied is what memory says it has applied. */
  ghost predicate ApplyTracked(n: Node)
  {
    && (n.appliedHere <==> n.lastApply.Some?)
    && (n.appliedHere ==> n.fingerprint == Some(ActiveAt(n.lastApply.value.0, n.lastApply.value.1))
                          && DistinctIds(n.lastApply.value.0))
    && (n.appliedHere && n.state.revision.Some? && n.state.applied == n.state.revision ==>
         n.lastApply.value.0 == n.state.desired && n.live == n.state.desired)
  }

  ghost predicate FetchTracked(n: Node)
  {
    if n.fetchedHere then n.seen == Some(Snapshot(n.state.desired, n.state.revision, n.quarantined))
    else n.quarantined == []
  }

  ghost predicate Inv(n: Node)
  {
    && ValidSet(n.state.desired) && ValidSet(n.disk.desired)
    && AckConsistent(n.state) && AckConsistent(n.disk)
    && ApplyTracked(n) && FetchTracked(n)
  }

  lemma FetchKeepsInv(n: Node, answer: Fetched, saved: bool)
    requires Inv(n)
    ensures Inv(AfterFetch(n, answer, saved))
  {
    if answer.Fresh? && Reading(answer.wire).Some? {
      ReadingValid(answer.wire);
      if Adopted(n.state, Reading(answer.wire).value).Ok? { AdoptedKeepsInv(n, Reading(answer.wire).value); }
    }
  }

  /** Adopting replaces a set that was applied only by one that is pending, and leaves the rest of the claim alone. */
  lemma AdoptedKeepsInv(n: Node, next: Snapshot)
    requires Inv(n) && ValidSet(next.desired) && Adopted(n.state, next).Ok?
    ensures var h := Adopted(n.state, next).value.0;
            && ValidSet(h.desired) && AckConsistent(h) && h.desired == next.desired && h.revision == next.revision
            && (h == n.state || (h.revision.Some? ==> h.applied != h.revision))
  {
    AdoptionAdvances(n.state, next);
  }

  lemma ApplyKeepsInv(n: Node, at: int, saved: bool)
    requires Inv(n)
    ensures Inv(AfterApply(n, at, saved))
  {}

  lemma AckKeepsInv(n: Node, saved: bool)
    requires Inv(n) && AckDue(n)
    ensures Inv(AfterAck(n, saved))
  {}

  lemma StepKeepsInv(n: Node, step: Step)
    requires Inv(n) && Enabled(n, step)
    ensures Inv(Next(n, step))
  {
    match step
    case Fetch(answer, saved) => FetchKeepsInv(n, answer, saved);
    case ApplySucceeds(at, saved) => ApplyKeepsInv(n, at, saved);
    case AckSucceeds(_, saved) => AckKeepsInv(n, saved);
    case _ =>
  }

  lemma {:induction false} AlwaysInv(r: Run, k: nat)
    requires Valid(r) && k <= |r.steps|
    ensures Inv(r.nodes[k])
  {
    if k > 0 {
      AlwaysInv(r, k - 1);
      StepKeepsInv(r.nodes[k - 1], r.steps[k - 1]);
    }
  }

  // ------------------------------------------------------ acknowledgement

  /** In every run, failed writes and crashes included, memory and file acknowledge only what is applied and held. */
  lemma AcknowledgedIsApplied(r: Run, k: nat)
    requires Valid(r) && k <= |r.steps|
    ensures AckConsistent(r.nodes[k].state) && AckConsistent(r.nodes[k].disk)
  {
    AlwaysInv(r, k);
  }

  /**
   Whenever an acknowledgement is attempted: this process has applied exactly
   the set it holds, that set is live and grants now what it granted when
   applied, and nothing this process fetched is quarantined.
   */
  lemma AckFollowsApply(r: Run, k: nat)
    requires Valid(r) && k < |r.steps| && (r.steps[k].AckSucceeds? || r.steps[k].AckFails?)
    ensures var n := r.nodes[k];
            && n.lastApply.Some? && n.lastApply.value.0 == n.state.desired && n.live == n.state.desired
            && Granted(n.state.desired, r.steps[k].at) == Granted(n.state.desired, n.lastApply.value.1)
            && n.quarantined == []
            && (n.fetchedHere ==> n.seen == Some(Snapshot(n.state.desired, n.state.revision, [])))
  {
    var n, step := r.nodes[k], r.steps[k];
    AlwaysInv(r, k);
    assert Enabled(n, step);
    assert ActiveAt(n.state.desired, step.at) == ActiveAt(n.state.desired, n.lastApply.value.1);
    FingerprintFaithful(n.state.desired, step.at, n.state.desired, n.lastApply.value.1);
  }

  /** A revision last seen with quarantined items is acknowledged only by a process that has not fetched. */
  lemma PartialAckOnlyAfterRestart(r: Run, k: nat)
    requires Valid(r) && k < |r.steps| && r.steps[k].AckSucceeds?
    requires r.nodes[k].seen.Some? && r.nodes[k].seen.value.quarantined != []
    ensures !r.nodes[k].fetchedHere
  {
    AckFollowsApply(r, k);
  }

  function Last(r: Run): Node
    requires r.nodes != []
  {
    r.nodes[|r.nodes| - 1]
  }

  ghost function Then(r: Run, step: Step): Run
    requires r.nodes != []
  {
    Run(r.nodes + [Next(Last(r), step)], r.steps + [step])
  }

  lemma RunGoesOn(r: Run, step: Step)
    requires Valid(r) && Enabled(Last(r), step)
    ensures Valid(Then(r, step)) && Last(Then(r, step)) == Next(Last(r), step)
    ensures Then(r, step).nodes[|r.steps|] == Last(r) && Then(r, step).steps[|r.steps|] == step
  {}

  /**
   And then it is: any run that ends with a revision on file, unacknowledged
   because items of it are quarantined, goes on with a restart and one good
   apply to its acknowledgement.
   */
  lemma RestartForgetsQuarantine(r: Run, at: int) returns (s: Run)
    requires Valid(r) && Last(r).state == Last(r).disk && Last(r).quarantined != []
    requires Last(r).state.revision.Some? && Last(r).state.acknowledged != Last(r).state.revision
    ensures Valid(s) && r.steps <= s.steps && |s.steps| == |r.steps| + 3 && s.steps[|r.steps| + 2].AckSucceeds?
    ensures Last(s).state.acknowledged == Last(r).state.revision && Last(s).seen == Last(r).seen
    ensures Last(s).state.desired == Last(r).state.desired
  {
    var s1, s2 := Then(r, Restart), Then(Then(r, Restart), ApplySucceeds(at, true));
    RunGoesOn(r, Restart);
    RunGoesOn(s1, ApplySucceeds(at, true));
    RunGoesOn(s2, AckSucceeds(at, true));
    s := Then(s2, AckSucceeds(at, true));
  }

  const NOTHING_HELD := Held([], None, None, None)

  /** An item whose start is not a date, so it is quarantined. */
  const UNFIT := WireItem("ext_00000000", "cred_0000000", Compatibility, "r", None, None, false, None, None)

  function FirstNode(file: Held): Node
  {
    Node(file, None, false, None, [], file, [], None, None, false)
  }

  lemma ReadingOf(revision: nat, unfit: bool)
    ensures var items := if unfit then [Some(UNFIT)] else [];
            var reading := Reading(Versioned(2, revision, items));
            reading.Some? && reading.value.desired == [] && reading.value.revision == Some(revision)
            && |reading.value.quarantined| == |items|
  {
    EmptySetValid();
    if unfit {
      assert Decoded([Some(UNFIT)]) == [UNFIT] && !ItemFit(UNFIT);
      assert [UNFIT][..0] == [];
      assert FitItems([UNFIT]) == [] && |UnfitLabels([UNFIT])| == 1;
    } else {
      assert Decoded([]) == [];
    }
  }

  /** A concrete one: a snapshot whose only item is unfit is acknowledged as applied in full. */
  lemma PartialAckExample() returns (s: Run)
    ensures Valid(s) && |s.steps| == 4 && s.steps[3].AckSucceeds? && Last(s).state.acknowledged == Some(5)
    ensures Last(s).seen.Some? && Last(s).seen.value.revision == Some(5) && |Last(s).seen.value.quarantined| == 1
  {
    EmptySetValid();
    ReadingOf(5, true);
    var wire := Versioned(2, 5, [Some(UNFIT)]);
    var r := Run([FirstNode(NOTHING_HELD)], []);
    var fetch := Fetch(Fresh(wire, None), true);
    RunGoesOn(r, fetch);
    s := RestartForgetsQuarantine(Then(r, fetch), 0);
  }

  // ------------------------------------------------------------ revisions

  lemma {:induction false} DurableMeansSaved(r: Run, k: nat)
    requires Valid(r) && Durable(r) && k <= |r.steps|
    ensures r.nodes[k].state == r.nodes[k].disk
  {
    if k > 0 {
      DurableMeansSaved(r, k - 1);
      assert Saves(r.steps[k - 1]);
    }
  }

  lemma FetchAdvances(n: Node, answer: Fetched, saved: bool)
    ensures Advances(n.state, AfterFetch(n, answer, saved).state)
  {
    if answer.Fresh? && Reading(answer.wire).Some? {
      var adopted := Adopted(n.state, Reading(answer.wire).value);
      if adopted.Ok? { AdoptionAdvances(n.state, Reading(answer.wire).value); }
    }
  }

  /**
   A snapshot was adopted and its write failed, and neither a later write nor
   a restart has made up for it.
   */
  ghost predicate Owed(r: Run, k: nat)
    requires Valid(r) && k <= |r.steps|
  {
    k > 0 &&
    match r.steps[k - 1]
    case Fetch(answer, saved) => if FetchWrites(r.nodes[k - 1], answer) then !saved else Owed(r, k - 1)
    case ApplySucceeds(_, saved) => !saved && Owed(r, k - 1)
    case AckSucceeds(_, saved) => !saved && Owed(r, k - 1)
    case Restart => false
    case _ => Owed(r, k - 1)
  }

  predicate SameGround(a: Held, b: Held)
  {
    a.desired == b.desired && a.revision == b.revision
  }

  /** The file is never ahead of memory, and holds the same set and revision unless a write is owed. */
  ghost predicate FileTracked(r: Run, k: nat)
    requires Valid(r) && k <= |r.steps|
  {
    Advances(r.nodes[k].disk, r.nodes[k].state) && (!Owed(r, k) ==> SameGround(r.nodes[k].disk, r.nodes[k].state))
  }

  lemma FetchTracksFile(r: Run, k: nat)
    requires Valid(r) && k < |r.steps| && r.steps[k].Fetch? && FileTracked(r, k)
    ensures FileTracked(r, k + 1)
  {
    var n, m, step := r.nodes[k], r.nodes[k + 1], r.steps[k];
    if m.disk == n.disk {
      FetchAdvances(n, step.answer, step.saved);
      AdvancesTransitive(n.disk, n.state, m.state);
    }
  }

  lemma OtherTracksFile(r: Run, k: nat)
    requires Valid(r) && k < |r.steps| && !r.steps[k].Fetch? && FileTracked(r, k)
    ensures FileTracked(r, k + 1)
  {
    var n, m := r.nodes[k], r.nodes[k + 1];
    if m.disk == n.disk && !r.steps[k].Restart? {
      assert SameGround(m.state, n.state);
      SameGroundAdvances(n.disk, n.state, m.state);
    }
  }

  lemma SameGroundAdvances(a: Held, b: Held, c: Held)
    requires Advances(a, b) && SameGround(b, c)
    ensures Advances(a, c)
  {}

  lemma {:induction false} AlwaysFileTracked(r: Run, k: nat)
    requires Valid(r) && k <= |r.steps|
    ensures FileTracked(r, k)
  {
    if k > 0 {
      AlwaysFileTracked(r, k - 1);
      if r.steps[k - 1].Fetch? { FetchTracksFile(r, k - 1); } else { OtherTracksFile(r, k - 1); }
    }
  }

  /** What memory holds raised the revision on file, or took a grant away from it at some instant. */
  ghost predicate AheadOfFile(n: Node)
  {
    n.state.revision.Some?
    && (n.disk.revision != n.state.revision || exists t :: Granted(n.state.desired, t) != Granted(n.disk.desired, t))
  }

  /** Falling back to a file that is not ahead keeps the ground exactly when memory is not ahead of it. */
  lemma FallsBackIff(n: Node)
    requires Advances(n.disk, n.state)
    ensures Advances(n.state, n.disk) <==> !AheadOfFile(n)
  {
    if n.state.revision.Some? && n.disk.revision == n.state.revision {
      assert forall t :: Granted(n.state.desired, t) <= Granted(n.disk.desired, t);
      if exists t :: Granted(n.state.desired, t) != Granted(n.disk.desired, t) {
        var t :| Granted(n.state.desired, t) != Granted(n.disk.desired, t);
        assert !(Granted(n.disk.desired, t) <= Granted(n.state.desired, t));
      }
    }
  }

  /** Step `k` is a crash while memory is ahead of the file. */
  ghost predicate FallsBack(r: Run, k: nat)
    requires Valid(r) && k < |r.steps|
  {
    r.steps[k].Restart? && AheadOfFile(r.nodes[k])
  }

  /** Such a crash comes only while the write of an adopted snapshot is owed. */
  lemma FallsBackOnlyOwing(r: Run, k: nat)
    requires Valid(r) && k < |r.steps| && FallsBack(r, k)
    ensures Owed(r, k)
  {
    AlwaysFileTracked(r, k);
  }

  lemma AdvancesSelf(h: Held)
    ensures Advances(h, h)
  {}

  /** Every step advances, except exactly such a crash. */
  lemma StepAdvancesIff(r: Run, k: nat)
    requires Valid(r) && k < |r.steps|
    ensures Advances(r.nodes[k].state, r.nodes[k + 1].state) <==> !FallsBack(r, k)
  {
    var n, step := r.nodes[k], r.steps[k];
    match step
    case Fetch(answer, saved) => FetchAdvances(n, answer, saved);
    case Restart =>
      AlwaysFileTracked(r, k);
      FallsBackIff(n);
    case _ =>
      AdvancesSelf(n.state);
      SameGroundAdvances(n.state, n.state, r.nodes[k + 1].state);
  }

  /**
   While no crash falls back, failed writes included: a held revision never
   disappears or goes back, and among states at one revision the credentials
   granted at every instant only shrink.
   */
  lemma RevisionsOnlyAdvance(r: Run, i: nat, j: nat)
    requires Valid(r) && i <= j <= |r.steps| && forall k :: i <= k < j ==> !FallsBack(r, k)
    ensures Advances(r.nodes[i].state, r.nodes[j].state)
  {
    AdvancesSelf(r.nodes[i].state);
    var k := i;
    while k < j
      invariant i <= k <= j && Advances(r.nodes[i].state, r.nodes[k].state)
    {
      StepAdvancesIff(r, k);
      AdvancesTransitive(r.nodes[i].state, r.nodes[k].state, r.nodes[k + 1].state);
      k := k + 1;
    }
  }

  /** Exactly then: revisions only advance between all points of a run if and only if no crash in it falls back. */
  lemma RevisionsAdvanceIff(r: Run, k: nat)
    requires Valid(r) && k <= |r.steps|
    ensures (forall i, j :: 0 <= i <= j <= k ==> Advances(r.nodes[i].state, r.nodes[j].state))
       <==> (forall m :: 0 <= m < k ==> !FallsBack(r, m))
  {
    if forall m :: 0 <= m < k ==> !FallsBack(r, m) {
      forall i, j | 0 <= i <= j <= k ensures Advances(r.nodes[i].state, r.nodes[j].state) {
        RevisionsOnlyAdvance(r, i, j);
      }
    } else {
      var m :| 0 <= m < k && FallsBack(r, m);
      StepAdvancesIff(r, m);
    }
  }

  ghost predicate GrantsCredential(h: Held, id: string, t: int)
  {
    exists a :: a in Granted(h.desired, t) && a.credentialId == id
  }

  /** A credential revoked or quarantined under a revision comes back only under a higher one, or by such a crash. */
  lemma ReturnsOnlyUnderHigherRevision(r: Run, i: nat, j: nat, id: string, t: int)
    requires Valid(r) && i <= j <= |r.steps| && r.nodes[i].state.revision.Some?
    requires forall k :: i <= k < j ==> !FallsBack(r, k)
    requires !GrantsCredential(r.nodes[i].state, id, t) && GrantsCredential(r.nodes[j].state, id, t)
    ensures r.nodes[j].state.revision.Some? && r.nodes[i].state.revision.value < r.nodes[j].state.revision.value
  {
    RevisionsOnlyAdvance(r, i, j);
    var a :| a in Granted(r.nodes[j].state.desired, t) && a.credentialId == id;
  }

  /**
   Such crashes come: any run that ends with memory on file goes on, through a
   snapshot of a higher revision whose write fails, an apply and a crash, to
   the old revision held and the new set live.
   */
  lemma FailedWriteRollsBack(r: Run, wire: Wire, etag: Option<string>, at: int) returns (s: Run)
    requires Valid(r) && Last(r).state == Last(r).disk && Reading(wire).Some? && Reading(wire).value.revision.Some?
    requires Last(r).state.revision.Some? && Last(r).state.revision.value < Reading(wire).value.revision.value
    ensures Valid(s) && r.steps <= s.steps && |s.steps| == |r.steps| + 3
    ensures var k := |r.steps|;
            && s.nodes[k + 1].state.revision == Reading(wire).value.revision && s.steps[k + 1].ApplySucceeds?
            && FallsBack(s, k + 2) && Last(s).state == Last(r).state && Last(s).live == Reading(wire).value.desired
  {
    var s1 := Then(r, Fetch(Fresh(wire, etag), false));
    var s2 := Then(s1, ApplySucceeds(at, false));
    AdoptedUnsaved(Last(r), wire, etag);
    RunGoesOn(r, Fetch(Fresh(wire, etag), false));
    RunGoesOn(s1, ApplySucceeds(at, false));
    RunGoesOn(s2, Restart);
    s := Then(s2, Restart);
    assert s.nodes[|r.steps| + 2] == Last(s2) && s.nodes[|r.steps| + 1] == Last(s1);
  }

  lemma AdoptedUnsaved(n: Node, wire: Wire, etag: Option<string>)
    requires Reading(wire).Some? && Reading(wire).value.revision.Some?
    requires n.state.revision.Some? && n.state.revision.value < Reading(wire).value.revision.value
    ensures var m := Next(n, Fetch(Fresh(wire, etag), false));
            && m.disk == n.disk && m.state.revision == Reading(wire).value.revision
            && m.state.desired == Reading(wire).value.desired && RevisionPending(m)
  {
    AdoptionAdvances(n.state, Reading(wire).value);
  }

  /** A concrete one: from revision 1 to 2 and back. */
  lemma RollBackExample() returns (s: Run)
    ensures Valid(s) && |s.steps| == 3 && s.nodes[1].state.revision == Some(2) && Last(s).state.revision == Some(1)
  {
    EmptySetValid();
    ReadingOf(2, false);
    var file := Held([], Some(1), None, None);
    s := FailedWriteRollsBack(Run([FirstNode(file)], []), Versioned(2, 2, []), None, 0);
  }

  // ------------------------------------------------------- when to apply

  /**
   In a process that has applied, another apply is due exactly when the
   revision is not yet applied or the credentials granted now differ from
   those granted by what was applied when it was; the order of a list never
   causes one, and no real change is missed.
   */
  lemma ApplyDueIff(r: Run, k: nat, now: int)
    requires Valid(r) && k <= |r.steps| && r.nodes[k].appliedHere
    ensures var n := r.nodes[k];
            n.lastApply.Some? &&
            (NeedsApply(n, now) <==>
               RevisionPending(n) || Granted(n.state.desired, now) != Granted(n.lastApply.value.0, n.lastApply.value.1))
  {
    AlwaysInv(r, k);
    var n := r.nodes[k];
    FingerprintFaithful(n.state.desired, now, n.lastApply.value.0, n.lastApply.value.1);
  }

  // ------------------------------------------------------- live, restart

  predicate TakesEffect(step: Step)
  {
    step.ApplySucceeds? || (step.ApplyFails? && step.reached)
  }

  /** What is live was held in memory when an apply last took effect, at point `i`, or was live from the start. */
  lemma LiveWasHeld(r: Run, k: nat) returns (i: nat)
    requires Valid(r) && k <= |r.steps|
    ensures i <= k && (i == 0 || TakesEffect(r.steps[i - 1])) && forall j :: i <= j < k ==> !TakesEffect(r.steps[j])
    ensures r.nodes[k].live == if i == 0 then r.nodes[0].live else r.nodes[i].state.desired
  {
    i := k;
    while i > 0 && !TakesEffect(r.steps[i - 1])
      invariant i <= k && r.nodes[i].live == r.nodes[k].live
      invariant forall j :: i <= j < k ==> !TakesEffect(r.steps[j])
    {
      i := i - 1;
    }
  }

  /** A restart starts over from the file, with nothing else remembered, and leaves what is live alone. */
  lemma RestartStartsOver(r: Run, k: nat)
    requires Valid(r) && k < |r.steps| && r.steps[k].Restart?
    ensures Start(r.nodes[k + 1]) && r.nodes[k + 1].disk == r.nodes[k].disk && r.nodes[k + 1].live == r.nodes[k].live
  {
    AlwaysInv(r, k);
  }

  /** The file changes only by a write that gets through, and then to what memory holds. */
  lemma FileChangesByWrites(r: Run, k: nat)
    requires Valid(r) && k < |r.steps| && r.nodes[k + 1].disk != r.nodes[k].disk
    ensures Saves(r.steps[k]) && !r.steps[k].Restart? && r.nodes[k + 1].disk == r.nodes[k + 1].state
  {}

  /** Step `k` is a restart, or takes up another set or revision. */
  ghost predicate TakesUp(r: Run, k: nat)
    requires Valid(r) && k < |r.steps|
  {
    || r.steps[k].Restart?
    || r.nodes[k + 1].state.desired != r.nodes[k].state.desired
    || r.nodes[k + 1].state.revision != r.nodes[k].state.revision
  }

  /** A revision is acknowledged once: between two acknowledgements comes such a step. */
  lemma AcknowledgedOnce(r: Run, i: nat, j: nat)
    requires Valid(r) && i < j < |r.steps| && r.steps[i].AckSucceeds? && r.steps[j].AckSucceeds?
    ensures exists k :: i < k < j && TakesUp(r, k)
  {
    NotYetAcknowledged(r, j);
    if forall k :: i < k < j ==> !TakesUp(r, k) {
      StillAcknowledged(r, i, j);
      assert false;
    }
  }

  lemma NotYetAcknowledged(r: Run, k: nat)
    requires Valid(r) && k < |r.steps| && r.steps[k].AckSucceeds?
    ensures !Acknowledged(r.nodes[k]) && Acknowledged(r.nodes[k + 1])
  {
    assert Enabled(r.nodes[k], r.steps[k]);
  }

  lemma StillAcknowledged(r: Run, i: nat, j: nat)
    requires Valid(r) && i < j < |r.steps| && r.steps[i].AckSucceeds?
    requires forall k :: i < k < j ==> !TakesUp(r, k)
    ensures Acknowledged(r.nodes[j])
  {
    NotYetAcknowledged(r, i);
    var k := i + 1;
    while k < j
      invariant i < k <= j && Acknowledged(r.nodes[k])
    {
      StaysAcknowledged(r, k);
      k := k + 1;
    }
  }

  predicate Acknowledged(n: Node)
  {
    n.state.acknowledged == n.state.revision
  }

  lemma StaysAcknowledged(r: Run, k: nat)
    requires Valid(r) && k < |r.steps| && Acknowledged(r.nodes[k]) && !TakesUp(r, k)
    ensures Acknowledged(r.nodes[k + 1])
  {
    var step := r.steps[k];
    if step.Fetch? && step.answer.Fresh? && Reading(step.answer.wire).Some? {
      AdoptionAdvances(r.nodes[k].state, Reading(step.answer.wire).value);
    }
  }

  // --------------------------------------------------------------- etags

  /** Step `k` brings a response. */
  ghost predicate Brings(r: Run, k: nat)
    requires Valid(r) && k < |r.steps|
  {
    r.steps[k].Fetch? && r.steps[k].answer.Fresh?
  }

  /** The response at step `k` is read and adopted. */
  ghost predicate Accepts(r: Run, k: nat)
    requires Valid(r) && k < |r.steps|
  {
    Brings(r, k) && Reading(r.steps[k].answer.wire).Some?
    && Adopted(r.nodes[k].state, Reading(r.steps[k].answer.wire).value).Ok?
  }

  /** It is adopted, changes what is held, and the write of that fails. */
  ghost predicate LosesWrite(r: Run, k: nat)
    requires Valid(r) && k < |r.steps|
  {
    Accepts(r, k) && Adopted(r.nodes[k].state, Reading(r.steps[k].answer.wire).value).value.1 && !r.steps[k].saved
  }

  /** Step `k` leaves the etag alone: no response, or one whose write was lost. */
  ghost predicate KeepsEtag(r: Run, k: nat)
    requires Valid(r) && k < |r.steps|
  {
    !r.steps[k].Restart? && (Brings(r, k) ==> LosesWrite(r, k))
  }

  lemma EtagKept(r: Run, k: nat)
    requires Valid(r) && k < |r.steps| && KeepsEtag(r, k)
    ensures r.nodes[k + 1].etag == r.nodes[k].etag
  {}

  lemma EtagMoved(r: Run, k: nat)
    requires Valid(r) && k < |r.steps| && !KeepsEtag(r, k) && r.nodes[k + 1].etag.Some?
    ensures Accepts(r, k) && !LosesWrite(r, k) && r.nodes[k + 1].etag == r.steps[k].answer.etag
  {}

  /** A response that is refused, and a restart, make the next fetch an unconditional one. */
  lemma RefusedForgetsEtag(r: Run, k: nat)
    requires Valid(r) && k < |r.steps| && (r.steps[k].Restart? || (Brings(r, k) && !Accepts(r, k)))
    ensures r.nodes[k + 1].etag.None?
  {}

  /**
   In every run, an etag that is sent along was brought, at step `j`, by a
   response that this process read and adopted, with what it changed written;
   since then there was no refusal and no other response but ones whose write
   was lost. So a snapshot that was refused or not written is asked for again,
   unless the server gave it an etag it had given before.
   */
  lemma EtagOrigin(r: Run, k: nat) returns (j: nat)
    requires Valid(r) && k <= |r.steps| && r.nodes[k].etag.Some?
    ensures j < k && Accepts(r, j) && !LosesWrite(r, j) && r.steps[j].answer.etag == r.nodes[k].etag
    ensures forall i :: j < i < k ==> KeepsEtag(r, i)
  {
    j := k;
    while j > 0 && KeepsEtag(r, j - 1)
      invariant j <= k && r.nodes[j].etag == r.nodes[k].etag
      invariant forall i :: j <= i < k ==> KeepsEtag(r, i)
    {
      EtagKept(r, j - 1);
      j := j - 1;
    }
    EtagMoved(r, j - 1);
    j := j - 1;
  }

  /** While no write was lost since it came, it is the etag of the snapshot held. */
  lemma EtagIsOfHeld(r: Run, k: nat, j: nat)
    requires Valid(r) && j < k <= |r.steps| && Accepts(r, j)
    requires forall i :: j < i < k ==> KeepsEtag(r, i) && !LosesWrite(r, i)
    ensures r.nodes[k].fetchedHere && r.nodes[k].seen == Reading(r.steps[j].answer.wire)
  {
    var i := j + 1;
    while i < k
      invariant j < i <= k && r.nodes[i].fetchedHere && r.nodes[i].seen == Reading(r.steps[j].answer.wire)
    {
      assert KeepsEtag(r, i) && !LosesWrite(r, i);
      i := i + 1;
    }
  }

  /** A lost write leaves the new snapshot held under the old etag. */
  lemma LostWriteKeepsOldEtag(r: Run, k: nat)
    requires Valid(r) && k < |r.steps| && LosesWrite(r, k)
    ensures var snapshot := Reading(r.steps[k].answer.wire).value;
            && r.nodes[k + 1].etag == r.nodes[k].etag && r.nodes[k + 1].disk == r.nodes[k].disk
            && r.nodes[k + 1].state.desired == snapshot.desired && r.nodes[k + 1].state.revision == snapshot.revision
            && (r.nodes[k].state.desired != snapshot.desired || r.nodes[k].state.revision != snapshot.revision)
  {
    AdoptionAdvances(r.nodes[k].state, Reading(r.steps[k].answer.wire).value);
  }
}
