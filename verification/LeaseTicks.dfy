/**
 What a process does is ticks, and crashes anywhere inside one. Every such
 history is one of the runs the theorems about the lease pool are about.
 */
module LeaseTicks {
  import opened Prelude
  import opened LeaseSlots
  import opened LeasePools
  import opened LeaseRuns

  /** A whole tick, or a crash after some of its steps and the next process opening the file. */
  datatype Act = Tick(env: Env) | Crash(env: Env, reached: nat, load: nat -> Secrets)

  function ActSteps(n: Node, pol: Policy, act: Act): seq<Step>
    requires pol.grid > 0
  {
    var steps := TickSteps(n, pol, act.env);
    if act.Tick? then steps else steps[..Min(act.reached, |steps|)] + [Restart(act.load)]
  }

  ghost function ActsSteps(n: Node, pol: Policy, acts: seq<Act>): seq<Step>
    requires pol.grid > 0
    decreases |acts|
  {
    if acts == [] then []
    else
      var steps := ActSteps(n, pol, acts[0]);
      steps + ActsSteps(Execute(n, pol, steps), pol, acts[1..])
  }

  /** The clock does not go back, and the draws of each tick are fit for the pool it starts with. */
  ghost predicate ActsOk(n: Node, pol: Policy, acts: seq<Act>)
    requires pol.grid > 0
    decreases |acts|
  {
    acts == [] ||
    var e := acts[0].env;
    && n.clock <= e.now <= e.later && DrawOk(n.state.slots, PoolSize(pol), e.draw)
    && ActsOk(Execute(n, pol, ActSteps(n, pol, acts[0])), pol, acts[1..])
  }

  lemma {:induction false} StepsJoin(n: Node, pol: Policy, a: seq<Step>, b: seq<Step>)
    requires pol.grid > 0 && StepsEnabled(n, pol, a) && StepsEnabled(Execute(n, pol, a), pol, b)
    ensures StepsEnabled(n, pol, a + b) && Execute(n, pol, a + b) == Execute(Execute(n, pol, a), pol, b)
    decreases |a|
  {
    if a == [] {
      assert a + b == b;
    } else {
      StepsJoin(Next(n, pol, a[0]), pol, a[1..], b);
      HeadTail(a, b);
    }
  }

  lemma {:induction false} StepsCut(n: Node, pol: Policy, a: seq<Step>, k: nat)
    requires pol.grid > 0 && StepsEnabled(n, pol, a) && k <= |a|
    ensures StepsEnabled(n, pol, a[..k])
    decreases k
  {
    if k > 0 {
      StepsCut(Next(n, pol, a[0]), pol, a[1..], k - 1);
      assert a[..k][1..] == a[1..][..k - 1];
    }
  }

  lemma ActEnabled(n: Node, pol: Policy, act: Act)
    requires pol.grid > 0 && n.clock <= act.env.now <= act.env.later
    requires DrawOk(n.state.slots, PoolSize(pol), act.env.draw)
    ensures StepsEnabled(n, pol, ActSteps(n, pol, act))
  {
    TickIsRun(n, pol, act.env);
    if act.Crash? { CrashEnabled(n, pol, TickSteps(n, pol, act.env), act.reached, act.load); }
  }

  lemma CrashEnabled(n: Node, pol: Policy, steps: seq<Step>, reached: nat, load: nat -> Secrets)
    requires pol.grid > 0 && StepsEnabled(n, pol, steps)
    ensures StepsEnabled(n, pol, steps[..Min(reached, |steps|)] + [Restart(load)])
  {
    var cut := steps[..Min(reached, |steps|)];
    StepsCut(n, pol, steps, |cut|);
    assert StepsEnabled(Execute(n, pol, cut), pol, [Restart(load)]);
    StepsJoin(n, pol, cut, [Restart(load)]);
  }

  lemma {:induction false} ActsEnabled(n: Node, pol: Policy, acts: seq<Act>)
    requires pol.grid > 0 && ActsOk(n, pol, acts)
    ensures StepsEnabled(n, pol, ActsSteps(n, pol, acts))
    decreases |acts|
  {
    if acts != [] {
      var steps := ActSteps(n, pol, acts[0]);
      ActEnabled(n, pol, acts[0]);
      ActsEnabled(Execute(n, pol, steps), pol, acts[1..]);
      StepsJoin(n, pol, steps, ActsSteps(Execute(n, pol, steps), pol, acts[1..]));
    }
  }

  /** The nodes these steps pass through. */
  ghost function Trace(n: Node, pol: Policy, steps: seq<Step>): seq<Node>
    requires pol.grid > 0
    decreases |steps|
  {
    if steps == [] then [n] else [n] + Trace(Next(n, pol, steps[0]), pol, steps[1..])
  }

  lemma {:induction false} TraceStart(n: Node, pol: Policy, steps: seq<Step>)
    requires pol.grid > 0
    ensures |Trace(n, pol, steps)| == |steps| + 1 && Trace(n, pol, steps)[0] == n
    decreases |steps|
  {
    if steps != [] { TraceStart(Next(n, pol, steps[0]), pol, steps[1..]); }
  }

  lemma {:induction false} TraceSteps(n: Node, pol: Policy, steps: seq<Step>, i: nat)
    requires pol.grid > 0 && StepsEnabled(n, pol, steps) && i < |steps|
    ensures |Trace(n, pol, steps)| == |steps| + 1
    ensures var t := Trace(n, pol, steps); Enabled(t[i], pol, steps[i]) && t[i + 1] == Next(t[i], pol, steps[i])
    decreases i
  {
    TraceStart(n, pol, steps);
    var next := Next(n, pol, steps[0]);
    TraceStart(next, pol, steps[1..]);
    if i > 0 { TraceSteps(next, pol, steps[1..], i - 1); }
  }

  ghost function RunOf(n: Node, pol: Policy, acts: seq<Act>): Run
    requires pol.grid > 0
  {
    Run(pol, Trace(n, pol, ActsSteps(n, pol, acts)), ActsSteps(n, pol, acts))
  }

  /** Every history of ticks and crashes, from any file this agent wrote, is a run. */
  lemma TicksAreRun(n: Node, pol: Policy, acts: seq<Act>)
    requires PolicyOk(pol) && Start(n, pol) && ActsOk(n, pol, acts)
    ensures Valid(RunOf(n, pol, acts)) && RunOf(n, pol, acts).nodes[0] == n
  {
    ActsEnabled(n, pol, acts);
    StepsAreRun(n, pol, ActsSteps(n, pol, acts));
  }

  lemma StepsAreRun(n: Node, pol: Policy, steps: seq<Step>)
    requires PolicyOk(pol) && Start(n, pol) && StepsEnabled(n, pol, steps)
    ensures Valid(Run(pol, Trace(n, pol, steps), steps)) && Trace(n, pol, steps)[0] == n
  {
    var t := Trace(n, pol, steps);
    TraceStart(n, pol, steps);
    forall i | 0 <= i < |steps| ensures Enabled(t[i], pol, steps[i]) && t[i + 1] == Next(t[i], pol, steps[i]) {
      TraceSteps(n, pol, steps, i);
    }
  }

  // ------------------------------------------------- one act after another

  lemma {:induction false} ExecuteJoin(n: Node, pol: Policy, a: seq<Step>, b: seq<Step>)
    requires pol.grid > 0
    ensures Execute(n, pol, a + b) == Execute(Execute(n, pol, a), pol, b)
    decreases |a|
  {
    if a == [] {
      assert a + b == b;
    } else {
      ExecuteJoin(Next(n, pol, a[0]), pol, a[1..], b);
      HeadTail(a, b);
    }
  }

  lemma {:induction false} TraceJoin(n: Node, pol: Policy, a: seq<Step>, b: seq<Step>, after: seq<Node>)
    requires pol.grid > 0 && Trace(Execute(n, pol, a), pol, b) == [Execute(n, pol, a)] + after
    ensures Trace(n, pol, a + b) == Trace(n, pol, a) + after
    decreases |a|
  {
    if a == [] {
      assert a + b == b;
    } else {
      TraceJoin(Next(n, pol, a[0]), pol, a[1..], b, after);
      HeadTail(a, b);
      Regroup([n], Trace(Next(n, pol, a[0]), pol, a[1..]), after);
    }
  }

  /** Act `act` is fit for `n`, takes these steps and passes through these nodes. */
  ghost predicate Acts(n: Node, pol: Policy, act: Act, steps: seq<Step>, after: seq<Node>)
    requires pol.grid > 0
  {
    && n.clock <= act.env.now <= act.env.later && DrawOk(n.state.slots, PoolSize(pol), act.env.draw)
    && ActSteps(n, pol, act) == steps && Trace(n, pol, steps) == [n] + after
  }

  lemma {:induction false} ActsJoin(n: Node, pol: Policy, acts: seq<Act>, act: Act, steps: seq<Step>, m: Node)
    requires pol.grid > 0 && ActsOk(n, pol, acts) && m == Execute(n, pol, ActsSteps(n, pol, acts))
    requires m.clock <= act.env.now <= act.env.later && DrawOk(m.state.slots, PoolSize(pol), act.env.draw)
    requires ActSteps(m, pol, act) == steps
    ensures ActsOk(n, pol, acts + [act]) && ActsSteps(n, pol, acts + [act]) == ActsSteps(n, pol, acts) + steps
    decreases |acts|
  {
    if acts == [] {
      assert acts + [act] == [act] && [act][1..] == [];
    } else {
      var first := ActSteps(n, pol, acts[0]);
      var rest := ActsSteps(Execute(n, pol, first), pol, acts[1..]);
      ExecuteJoin(n, pol, first, rest);
      ActsJoin(Execute(n, pol, first), pol, acts[1..], act, steps, m);
      HeadTail(acts, [act]);
      Regroup(first, rest, steps);
    }
  }

  /** `r` is the run of this history. */
  ghost predicate Went(n: Node, pol: Policy, acts: seq<Act>, r: Run)
  {
    pol.grid > 0 && ActsOk(n, pol, acts) && r == RunOf(n, pol, acts)
  }

  function Last(r: Run): Node
    requires r.nodes != []
  {
    r.nodes[|r.nodes| - 1]
  }

  lemma {:induction false} TraceEnd(n: Node, pol: Policy, steps: seq<Step>)
    requires pol.grid > 0
    ensures Trace(n, pol, steps) != [] && Trace(n, pol, steps)[|Trace(n, pol, steps)| - 1] == Execute(n, pol, steps)
    decreases |steps|
  {
    if steps != [] { TraceEnd(Next(n, pol, steps[0]), pol, steps[1..]); }
  }

  /** One more act. */
  lemma WentOn(n: Node, pol: Policy, acts: seq<Act>, r: Run, act: Act, steps: seq<Step>, after: seq<Node>)
    requires Went(n, pol, acts, r) && r.nodes != [] && Acts(Last(r), pol, act, steps, after)
    ensures Went(n, pol, acts + [act], Run(pol, r.nodes + after, r.steps + steps))
  {
    TraceEnd(n, pol, r.steps);
    ActsJoin(n, pol, acts, act, steps, Last(r));
    TraceJoin(n, pol, r.steps, steps, after);
  }

  // ------------------------------------------------------ what a tick does

  /** The plan wrote nothing or its write got through. */
  predicate PlanStands(n: Node, pol: Policy, e: Env)
    requires pol.grid > 0
  {
    !PlanOf(n, pol, e.now, e.draw).1 || e.planSaved
  }

  /** The apply, if one was needed, was proven live and its mark got through. */
  predicate ApplyStands(m: Node, e: Env)
  {
    NeedsApply(m) ==> e.apply == ProvenLive && e.applySaved
  }

  /**
   A tick plans first. It applies if and only if the plan stands and the pool
   then needs it, as the outcome has it. It reports if and only if there is a
   pool, plan and apply both stand, and a report is due or the tick itself
   planned or applied something: a new generation is reported in the tick that
   made it live.
   */
  lemma TickDoes(n: Node, pol: Policy, e: Env)
    requires pol.grid > 0
    ensures var steps, m := TickSteps(n, pol, e), Next(n, pol, PlanStep(e.now, e.draw, e.planSaved));
            var applies := PlanStands(n, pol, e) && NeedsApply(m);
            var syncs := && PlanStands(n, pol, e) && ApplyStands(m, e)
                         && (pol.size > 0 || m.state.slots != [])
                         && (e.syncDue || PlanOf(n, pol, e.now, e.draw).1 || NeedsApply(m));
            && |steps| == 1 + (if applies then 1 else 0) + (if syncs then 1 else 0)
            && steps[0] == PlanStep(e.now, e.draw, e.planSaved)
            && (applies ==> steps[1] == match e.apply
                                        case ProvenLive => ApplySucceeds(e.applySaved)
                                        case ReachedButFailed => ApplyFails(true)
                                        case Rejected => ApplyFails(false))
            && (syncs ==> steps[|steps| - 1] == match e.answer
                                                case None => SyncFails
                                                case Some(answer) => SyncStep(e.later, answer, e.syncSaved))
  {
    var p := PlanStep(e.now, e.draw, e.planSaved);
    var m := Next(n, pol, p);
    ApplyPartDoes(m, pol, e, PlanOf(n, pol, e.now, e.draw).1);
  }

  lemma ApplyPartDoes(m: Node, pol: Policy, e: Env, changed: bool)
    requires pol.grid > 0
    ensures var steps := ApplyPart(m, pol, e, changed);
            var applies := (!changed || e.planSaved) && NeedsApply(m);
            var syncs := && (!changed || e.planSaved) && ApplyStands(m, e)
                         && (pol.size > 0 || m.state.slots != []) && (e.syncDue || changed || NeedsApply(m));
            && |steps| == (if applies then 1 else 0) + (if syncs then 1 else 0)
            && (applies ==> steps[0] == match e.apply
                                        case ProvenLive => ApplySucceeds(e.applySaved)
                                        case ReachedButFailed => ApplyFails(true)
                                        case Rejected => ApplyFails(false))
            && (syncs ==> steps[|steps| - 1] == match e.answer
                                                case None => SyncFails
                                                case Some(answer) => SyncStep(e.later, answer, e.syncSaved))
  {}
}
