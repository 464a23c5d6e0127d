/**
 The reconciler of external authorizations as a state machine over fetch,
 apply, acknowledge and restart, its tick, and what holds over whole runs.
 */
module ExternalReconcilers {
  import opened Prelude
  import opened Authorizations
  import opened AuthorizationViews
  import opened ExternalSnapshots

  datatype Fetched = NotModified | Unreachable | Fresh(wire: Wire, etag: Option<string>)

  /**
   Memory, the state file and the live set. The last three fields are history:
   what this process last applied and when, the last snapshot ever accepted,
   and whether this process accepted one.
   */
  datatype Node = Node(
    state: Held, fingerprint: Option<seq<Authorization>>, appliedHere: bool,
    etag: Option<string>, quarantined: seq<string>,
    disk: Held, live: seq<Authorization>,
    lastApply: Option<(seq<Authorization>, int)>, seen: Option<Snapshot>, fetchedHere: bool)

  datatype Step =
    | Fetch(answer: Fetched, saved: bool)
    | ApplyFails(at: int, reached: bool)
    | ApplySucceeds(at: int, saved: bool)
    | AckFails(at: int)
    | AckSucceeds(at: int, saved: bool)
    | Restart

  predicate RevisionPending(n: Node)
  {
    n.state.revision.Some? && n.state.applied != n.state.revision
  }

  predicate NeedsApply(n: Node, now: int)
  {
    !n.appliedHere || n.fingerprint != Some(ActiveAt(n.state.desired, now)) || RevisionPending(n)
  }

  predicate AckDue(n: Node)
  {
    n.state.revision.Some? && n.state.applied == n.state.revision
    && n.state.acknowledged != n.state.revision && n.quarantined == []
  }

  ghost function AfterFetch(n: Node, answer: Fetched, saved: bool): Node
  {
    if !answer.Fresh? then n
    else
      var snapshot := Reading(answer.wire);
      if snapshot.None? then n.(etag := None)
      else
        var adopted := Adopted(n.state, snapshot.value);
        if adopted.Err? then n.(etag := None)
        else
          var (next, changed) := adopted.value;
          n.(state := next, quarantined := snapshot.value.quarantined,
             disk := if changed && saved then next else n.disk,
             etag := if changed && !saved then n.etag else answer.etag,
             seen := snapshot, fetchedHere := true)
  }

  function AfterApply(n: Node, at: int, saved: bool): Node
  {
    var next := n.state.(applied := n.state.revision);
    n.(state := next, fingerprint := Some(ActiveAt(n.state.desired, at)), appliedHere := true,
       disk := if saved then next else n.disk, live := n.state.desired,
       lastApply := Some((n.state.desired, at)))
  }

  function AfterAck(n: Node, saved: bool): Node
  {
    var next := n.state.(acknowledged := n.state.revision);
    n.(state := next, disk := if saved then next else n.disk)
  }

  ghost function Next(n: Node, step: Step): Node
  {
    match step
    case Fetch(answer, saved) => AfterFetch(n, answer, saved)
    case ApplyFails(_, reached) => if reached then n.(live := n.state.desired) else n
    case ApplySucceeds(at, saved) => AfterApply(n, at, saved)
    case AckFails(_) => n
    case AckSucceeds(_, saved) => AfterAck(n, saved)
    case Restart =>
      n.(state := n.disk, fingerprint := None, appliedHere := false, etag := None, quarantined := [],
         lastApply := None, fetchedHere := false)
  }

  ghost predicate Enabled(n: Node, step: Step)
  {
    match step
    case Fetch(_, _) => true
    case ApplyFails(at, _) => NeedsApply(n, at)
    case ApplySucceeds(at, _) => NeedsApply(n, at)
    case AckFails(at) => !NeedsApply(n, at) && AckDue(n)
    case AckSucceeds(at, _) => !NeedsApply(n, at) && AckDue(n)
    case Restart => true
  }

  // ------------------------------------------------------------ one tick

  datatype ApplyOutcome = Rejected | ReachedButFailed | ProvenLive

  datatype Env = Env(
    fetchDue: bool, answer: Fetched, fetchSaved: bool, now: int,
    apply: ApplyOutcome, applySaved: bool, ackOk: bool, ackSaved: bool)

  ghost function Execute(n: Node, steps: seq<Step>): Node
    decreases |steps|
  {
    if steps == [] then n else Execute(Next(n, steps[0]), steps[1..])
  }

  ghost predicate StepsEnabled(n: Node, steps: seq<Step>)
    decreases |steps|
  {
    steps == [] || (Enabled(n, steps[0]) && StepsEnabled(Next(n, steps[0]), steps[1..]))
  }

  function AckPart(n: Node, e: Env): seq<Step>
  {
    if !AckDue(n) then [] else if e.ackOk then [AckSucceeds(e.now, e.ackSaved)] else [AckFails(e.now)]
  }

  function ApplyStep(e: Env): Step
  {
    if e.apply == ProvenLive then ApplySucceeds(e.now, e.applySaved) else ApplyFails(e.now, e.apply == ReachedButFailed)
  }

  ghost function ApplyPart(n: Node, e: Env): seq<Step>
  {
    if !NeedsApply(n, e.now) then AckPart(n, e)
    else [ApplyStep(e)]
         + if e.apply == ProvenLive && e.applySaved then AckPart(Next(n, ApplyStep(e)), e) else []
  }

  lemma ExecuteFirst(n: Node, step: Step, rest: seq<Step>)
    ensures Execute(n, [step] + rest) == Execute(Next(n, step), rest)
  {
    assert ([step] + rest)[1..] == rest;
  }

  /** Adopting a changed snapshot writes the file. */
  ghost predicate FetchWrites(n: Node, answer: Fetched)
  {
    answer.Fresh? && Reading(answer.wire).Some?
    && Adopted(n.state, Reading(answer.wire).value).Ok?
    && Adopted(n.state, Reading(answer.wire).value).value.1
  }

  /** The steps one tick takes, cut short by the first failed write, apply or acknowledgement. */
  ghost function TickSteps(n: Node, e: Env): seq<Step>
  {
    if !e.fetchDue then ApplyPart(n, e)
    else
      var f := Fetch(e.answer, e.fetchSaved);
      [f] + if FetchWrites(n, e.answer) && !e.fetchSaved then [] else ApplyPart(Next(n, f), e)
  }

  lemma ApplyPartEnabled(n: Node, e: Env)
    ensures StepsEnabled(n, ApplyPart(n, e))
  {
    if NeedsApply(n, e.now) {
      var m := Next(n, ApplyStep(e));
      var rest := if e.apply == ProvenLive && e.applySaved then AckPart(m, e) else [];
      assert StepsEnabled(m, rest);
      assert ([ApplyStep(e)] + rest)[1..] == rest;
    }
  }

  /** Every tick is a sequence of allowed steps. */
  lemma TickIsRun(n: Node, e: Env)
    ensures StepsEnabled(n, TickSteps(n, e))
  {
    if !e.fetchDue {
      ApplyPartEnabled(n, e);
    } else {
      var f := Fetch(e.answer, e.fetchSaved);
      var rest := if FetchWrites(n, e.answer) && !e.fetchSaved then [] else ApplyPart(Next(n, f), e);
      ApplyPartEnabled(Next(n, f), e);
      assert ([f] + rest)[1..] == rest;
    }
  }

  /** What was fetched changed nothing or its write got through. */
  ghost predicate FetchStands(n: Node, e: Env)
  {
    e.fetchDue && FetchWrites(n, e.answer) ==> e.fetchSaved
  }

  /** The node as it applies and acknowledges. */
  ghost function AfterFetching(n: Node, e: Env): Node
  {
    if e.fetchDue then Next(n, Fetch(e.answer, e.fetchSaved)) else n
  }

  /** The apply, if one was needed, was proven live and its mark got through. */
  predicate ApplyStands(m: Node, e: Env)
  {
    NeedsApply(m, e.now) ==> e.apply == ProvenLive && e.applySaved
  }

  /**
   A tick fetches if that is due, whatever comes of it. It applies if and only
   if what was fetched stands and the set then needs it, as the outcome has
   it; and it acknowledges if and only if the apply stands too and the
   revision is then due, as the outcome has it.
   */
  lemma TickDoes(n: Node, e: Env)
    ensures var steps, m := TickSteps(n, e), AfterFetching(n, e);
            var applies := FetchStands(n, e) && NeedsApply(m, e.now);
            var acks := FetchStands(n, e) && ApplyStands(m, e)
                        && AckDue(if NeedsApply(m, e.now) then Next(m, ApplySucceeds(e.now, e.applySaved)) else m);
            var fetches := if e.fetchDue then 1 else 0;
            && |steps| == fetches + (if applies then 1 else 0) + (if acks then 1 else 0)
            && (e.fetchDue ==> steps[0] == Fetch(e.answer, e.fetchSaved))
            && (applies ==> steps[fetches] == match e.apply
                                              case ProvenLive => ApplySucceeds(e.now, e.applySaved)
                                              case ReachedButFailed => ApplyFails(e.now, true)
                                              case Rejected => ApplyFails(e.now, false))
            && (acks ==> steps[|steps| - 1] == if e.ackOk then AckSucceeds(e.now, e.ackSaved) else AckFails(e.now))
  {
    ApplyPartDoes(AfterFetching(n, e), e);
  }

  lemma ApplyPartDoes(m: Node, e: Env)
    ensures var steps := ApplyPart(m, e);
            var applies := NeedsApply(m, e.now);
            var acks := ApplyStands(m, e) && AckDue(if applies then Next(m, ApplySucceeds(e.now, e.applySaved)) else m);
            && |steps| == (if applies then 1 else 0) + (if acks then 1 else 0)
            && (applies ==> steps[0] == match e.apply
                                        case ProvenLive => ApplySucceeds(e.now, e.applySaved)
                                        case ReachedButFailed => ApplyFails(e.now, true)
                                        case Rejected => ApplyFails(e.now, false))
            && (acks ==> steps[|steps| - 1] == if e.ackOk then AckSucceeds(e.now, e.ackSaved) else AckFails(e.now))
  {}

  class ExternalReconciler {
    var state: Held
    var fingerprint: Option<seq<Authorization>>
    var appliedHere: bool
    var etag: Option<string>
    var quarantined: seq<string>
    var disk: Held
    var live: seq<Authorization>
    ghost var lastApply: Option<(seq<Authorization>, int)>
    ghost var seen: Option<Snapshot>
    ghost var fetchedHere: bool

    ghost function View(): Node
      reads this
    {
      Node(state, fingerprint, appliedHere, etag, quarantined, disk, live, lastApply, seen, fetchedHere)
    }

    constructor (file: Held, running: seq<Authorization>)
      ensures View() == Node(file, None, false, None, [], file, running, None, None, false)
    {
      state, fingerprint, appliedHere, etag, quarantined := file, None, false, None, [];
      disk, live, lastApply, seen, fetchedHere := file, running, None, None, false;
    }

    /** Adopt a snapshot over what is held; a refused one changes nothing. */
    method Adopt(next: Snapshot) returns (r: Result<bool, SnapshotError>)
      modifies this`state
      ensures match Adopted(old(state), next)
              case Ok(v) => r == Ok(v.1) && state == v.0
              case Err(e) => r == Err(e) && state == old(state)
    {
      var changed := next.desired != state.desired;
      if state.revision.Some? && next.revision.Some? {
        if next.revision.value < state.revision.value {
          return Err(StaleRevision);
        }
        if next.revision.value == state.revision.value && changed
           && !OnlyTightens(state.desired, next.desired, next.quarantined) {
          return Err(ContentChanged);
        }
      } else if state.revision.Some? {
        return Err(SchemaDowngrade);
      }
      if changed || next.revision != state.revision {
        state := Held(next.desired, next.revision, None, None);
        return Ok(true);
      }
      r := Ok(false);
    }

    /** Take in the answer to a fetch; durable before anything is applied. */
    method TakeAnswer(answer: Fetched, saved: bool) returns (stop: bool, failed: bool)
      modifies this
      ensures View() == Next(old(View()), Fetch(answer, saved))
      ensures stop <==> FetchWrites(old(View()), answer) && !saved
    {
      stop, failed := false, false;
      match answer {
        case NotModified =>
        case Unreachable => failed := true;
        case Fresh(wire, tag) =>
          var parsed := ReadSnapshot(wire);
          var adopted := Err(BadResponse);
          if parsed.Ok? {
            adopted := Adopt(parsed.value);
          }
          if adopted.Err? {
            etag := None;
            failed := true;
          } else {
            quarantined := parsed.value.quarantined;
            seen, fetchedHere := Some(parsed.value), true;
            if adopted.value {
              if !saved {
                return true, true;
              }
              disk := state;
            }
            etag := tag;
          }
      }
    }

    method Acknowledge(e: Env) returns (ok: bool)
      modifies this
      ensures View() == Execute(old(View()), AckPart(old(View()), e))
    {
      ok := true;
      if state.revision.Some? && state.applied == state.revision
         && state.acknowledged != state.revision && quarantined == [] {
        if !e.ackOk {
          return false;
        }
        state := state.(acknowledged := state.revision);
        if e.ackSaved { disk := state; } else { ok := false; }
      }
    }

    /** Apply what is held; only a proven live answer counts, and only a saved mark goes on. */
    method ApplyHeld(e: Env) returns (ok: bool)
      modifies this
      ensures View() == Next(old(View()), ApplyStep(e))
      ensures ok <==> e.apply == ProvenLive && e.applySaved
    {
      if e.apply != Rejected {
        live := state.desired;
      }
      if e.apply != ProvenLive {
        return false;
      }
      fingerprint := Some(ActiveAt(state.desired, e.now));
      appliedHere := true;
      lastApply := Some((state.desired, e.now));
      state := state.(applied := state.revision);
      if e.applySaved { disk := state; }
      ok := e.applySaved;
    }

    method ApplyAndAcknowledge(e: Env) returns (ok: bool)
      modifies this
      ensures View() == Execute(old(View()), ApplyPart(old(View()), e))
    {
      ghost var n := View();
      var active := ActiveAt(state.desired, e.now);
      if !appliedHere || fingerprint != Some(active) || (state.revision.Some? && state.applied != state.revision) {
        ok := ApplyHeld(e);
        ghost var m := View();
        ExecuteFirst(n, ApplyStep(e), if ok then AckPart(m, e) else []);
        if ok {
          ok := Acknowledge(e);
        }
      } else {
        ok := Acknowledge(e);
      }
    }

    /** One pass: fetch when due, enforce and apply what is held, acknowledge it. */
    method Tick(e: Env) returns (ok: bool)
      modifies this
      ensures View() == Execute(old(View()), TickSteps(old(View()), e))
    {
      ghost var n := View();
      var failed := false;
      if e.fetchDue {
        ghost var f := Fetch(e.answer, e.fetchSaved);
        var stop;
        stop, failed := TakeAnswer(e.answer, e.fetchSaved);
        if stop {
          assert TickSteps(n, e) == [f] && [f][1..] == [];
          return false;
        }
        ghost var m := View();
        ok := ApplyAndAcknowledge(e);
        assert TickSteps(n, e)[1..] == ApplyPart(m, e);
      } else {
        ok := ApplyAndAcknowledge(e);
      }
      ok := ok && !failed && quarantined == [];
    }
  }
}
