/**
 Applying a static revision as a crashable transaction: back up, write the
 candidate, render, restart, stamp, drop the backup, with rollback; and the
 recovery that runs first next time (apps/admin/src/static_apply.rs).
 */
module StaticApply {
  import opened Prelude

  /**
   The node's files and services. `live` is the text the running config was
   rendered from and `served` the endpoint parameters clients are given;
   `None` is anything else, such as a half-applied or broken state.
   */
  datatype Machine = Machine(
    toml: string, backup: Option<string>, live: Option<string>, served: Option<string>, stamp: nat)

  /** One write or one change of a running service: the points between them are the crash points. */
  datatype Effect =
    | SetBackup(backup: Option<string>)
    | SetToml(text: string)
    | SetLive(live: Option<string>)
    | SetServed(served: Option<string>)
    | SetStamp(revision: nat)

  function Do(m: Machine, e: Effect): Machine
  {
    match e
    case SetBackup(b) => m.(backup := b)
    case SetToml(t) => m.(toml := t)
    case SetLive(l) => m.(live := l)
    case SetServed(s) => m.(served := s)
    case SetStamp(r) => m.(stamp := r)
  }

  function DoAll(m: Machine, es: seq<Effect>): Machine
  {
    if es == [] then m else Do(DoAll(m, es[..|es| - 1]), es[|es| - 1])
  }

  /**
   Endpoint parameters of a deployment text, whether the subscription service
   can be restarted here, and whether offline changes are allowed, in which
   case a service that cannot be restarted is left serving what it serves.
   */
  datatype Site = Site(endpoints: string -> string, controllable: bool, offline: bool)

  /** A service change either works or leaves something behind. */
  datatype Outcome = Works | LeavesBehind(left: Option<string>)

  function Left(o: Outcome, wanted: string): Option<string>
  {
    match o
    case Works => Some(wanted)
    case LeavesBehind(left) => left
  }

  datatype ApplyEnv = ApplyEnv(
    backupOk: bool, tomlOk: bool, undoOk: bool, render: Outcome, serve: Outcome, stampOk: bool, dropOk: bool,
    backTomlOk: bool, backRender: Outcome, backServe: Outcome, backDropOk: bool)

  datatype RecoverEnv = RecoverEnv(parses: bool, tomlOk: bool, render: Outcome, serve: Outcome, dropOk: bool)

  const ALL_GOOD := RecoverEnv(true, true, Works, Works, true)

  // ------------------------------------------------------------- scripts

  function When(b: bool, e: Effect): seq<Effect>
  {
    if b then [e] else []
  }

  function Commit(revision: nat, env: ApplyEnv): seq<Effect>
  {
    When(env.stampOk, SetStamp(revision)) + When(env.stampOk && env.dropOk, SetBackup(None))
  }

  /** Restore text, then the running config if the text was restored, then the service if it was touched. */
  function RollbackBody(site: Site, original: string, candidate: string, touched: bool, env: ApplyEnv): seq<Effect>
  {
    When(env.backTomlOk, SetToml(original))
    + When(env.backTomlOk, SetLive(Left(env.backRender, original)))
    + When(touched, SetServed(Left(env.backServe, site.endpoints(if env.backTomlOk then original else candidate))))
  }

  function Rollback(site: Site, original: string, candidate: string, touched: bool, env: ApplyEnv): seq<Effect>
  {
    RollbackBody(site, original, candidate, touched, env) + When(env.backTomlOk && env.backDropOk, SetBackup(None))
  }

  predicate EndpointsChange(site: Site, original: string, candidate: string)
  {
    site.endpoints(original) != site.endpoints(candidate)
  }

  /** The subscription service is restarted with the candidate and fails. */
  predicate ServeFails(site: Site, original: string, candidate: string, env: ApplyEnv)
  {
    EndpointsChange(site, original, candidate) && site.controllable && !env.serve.Works?
  }

  /** New endpoint parameters that cannot be made live, and must be. */
  predicate CannotServe(site: Site, original: string, candidate: string)
  {
    EndpointsChange(site, original, candidate) && !site.controllable && !site.offline
  }

  function FinishBody(site: Site, original: string, candidate: string, revision: nat, env: ApplyEnv): seq<Effect>
  {
    When(EndpointsChange(site, original, candidate) && site.controllable,
         SetServed(Left(env.serve, site.endpoints(candidate))))
    + if CannotServe(site, original, candidate) then RollbackBody(site, original, candidate, false, env)
      else if ServeFails(site, original, candidate, env) then RollbackBody(site, original, candidate, true, env)
      else When(env.stampOk, SetStamp(revision))
  }

  /** The candidate does not go through: the config or the subscription service refuses it. */
  predicate CandidateFails(site: Site, original: string, candidate: string, env: ApplyEnv)
  {
    !env.render.Works? || CannotServe(site, original, candidate) || ServeFails(site, original, candidate, env)
  }

  /** Between writing the backup and dropping it. */
  function Body(site: Site, original: string, candidate: string, revision: nat, env: ApplyEnv): seq<Effect>
  {
    if !env.tomlOk then []
    else [SetToml(candidate), SetLive(Left(env.render, candidate))]
         + if env.render.Works? then FinishBody(site, original, candidate, revision, env)
           else RollbackBody(site, original, candidate, false, env)
  }

  predicate Drops(site: Site, original: string, candidate: string, env: ApplyEnv)
  {
    if !env.tomlOk then env.undoOk
    else if CandidateFails(site, original, candidate, env) then env.backTomlOk && env.backDropOk
    else env.stampOk && env.dropOk
  }

  /** Everything a changed plan does, in order, cut short where the code stops. */
  function ApplyScript(site: Site, original: string, candidate: string, revision: nat, env: ApplyEnv): seq<Effect>
  {
    if !env.backupOk then []
    else [SetBackup(Some(original))] + Body(site, original, candidate, revision, env)
         + When(Drops(site, original, candidate, env), SetBackup(None))
  }

  function RecoverScript(site: Site, m: Machine, env: RecoverEnv): seq<Effect>
  {
    if m.backup.None? || !env.parses || !env.tomlOk then []
    else
      var text := m.backup.value;
      [SetToml(text), SetLive(Left(env.render, text))]
      + if !env.render.Works? then []
        else When(site.controllable, SetServed(Left(env.serve, site.endpoints(text))))
             + When((site.controllable ==> env.serve.Works?) && env.dropOk, SetBackup(None))
  }

  predicate RecoveryCompletes(site: Site, m: Machine, env: RecoverEnv)
  {
    m.backup.None? ||
    (env.parses && env.tomlOk && env.render.Works? && (site.controllable ==> env.serve.Works?) && env.dropOk)
  }

  class StaticNode {
    var toml: string
    var backup: Option<string>
    var live: Option<string>
    var served: Option<string>
    var stamp: nat

    ghost function View(): Machine
      reads this
    {
      Machine(toml, backup, live, served, stamp)
    }

    constructor (m: Machine)
      ensures View() == m
    {
      toml, backup, live, served, stamp := m.toml, m.backup, m.live, m.served, m.stamp;
    }

    /** Restore an interrupted apply, if one left its backup behind. */
    method RecoverInterruptedApply(site: Site, env: RecoverEnv) returns (ok: bool)
      modifies this
      ensures View() == DoAll(old(View()), RecoverScript(site, old(View()), env))
      ensures ok <==> RecoveryCompletes(site, old(View()), env)
    {
      ghost var m := View();
      ghost var es := RecoverScript(site, m, env);
      if backup.None? {
        return true;
      }
      var text := backup.value;
      if !env.parses || !env.tomlOk {
        return false;
      }
      toml := text;
      live := Left(env.render, text);
      Unrolled(m, es);
      if !env.render.Works? {
        return false;
      }
      if site.controllable {
        served := Left(env.serve, site.endpoints(text));
        if !env.serve.Works? {
          return false;
        }
      }
      if !env.dropOk {
        return false;
      }
      backup := None;
      ok := true;
    }

    method CommitRevision(revision: nat, env: ApplyEnv) returns (ok: bool)
      modifies this
      ensures View() == DoAll(old(View()), Commit(revision, env))
      ensures ok <==> env.stampOk
    {
      Unrolled(View(), Commit(revision, env));
      if !env.stampOk {
        return false;
      }
      stamp := revision;
      if env.dropOk {
        backup := None;
      }
      ok := true;
    }

    method RollBack(site: Site, original: string, candidate: string, touched: bool, env: ApplyEnv)
      requires toml == candidate
      modifies this
      ensures View() == DoAll(old(View()), Rollback(site, original, candidate, touched, env))
    {
      Unrolled(View(), Rollback(site, original, candidate, touched, env));
      var restored := env.backTomlOk;
      if restored {
        toml := original;
        live := Left(env.backRender, original);
      }
      if touched {
        served := Left(env.backServe, site.endpoints(toml));
      }
      if restored && env.backDropOk {
        backup := None;
      }
    }

    /** From the rendered candidate on: the service, then commit or rollback. */
    method FinishApply(site: Site, original: string, candidate: string, revision: nat, env: ApplyEnv) returns (ok: bool)
      requires toml == candidate && env.tomlOk && env.render.Works?
      modifies this
      ensures View() == DoAll(old(View()), FinishBody(site, original, candidate, revision, env)
                                           + When(Drops(site, original, candidate, env), SetBackup(None)))
      ensures ok <==> !CandidateFails(site, original, candidate, env) && env.stampOk
    {
      ghost var m := View();
      if site.endpoints(original) != site.endpoints(candidate) {
        if site.controllable {
          served := Left(env.serve, site.endpoints(candidate));
          ghost var first := [SetServed(served)];
          Unrolled(m, first);
          if !env.serve.Works? {
            RollBack(site, original, candidate, true, env);
            Joined(m, first, RollbackBody(site, original, candidate, true, env),
                   When(env.backTomlOk && env.backDropOk, SetBackup(None)));
            return false;
          }
          ok := CommitRevision(revision, env);
          Joined(m, first, When(env.stampOk, SetStamp(revision)), When(env.stampOk && env.dropOk, SetBackup(None)));
          return;
        }
        if !site.offline {
          RollBack(site, original, candidate, false, env);
          Joined(m, [], RollbackBody(site, original, candidate, false, env),
                 When(env.backTomlOk && env.backDropOk, SetBackup(None)));
          return false;
        }
      }
      ok := CommitRevision(revision, env);
      Joined(m, [], When(env.stampOk, SetStamp(revision)), When(env.stampOk && env.dropOk, SetBackup(None)));
    }

    /** The staged part of an apply, from the backup on. */
    method ApplyCandidate(site: Site, candidate: string, revision: nat, env: ApplyEnv) returns (ok: bool)
      modifies this
      ensures View() == DoAll(old(View()), ApplyScript(site, old(toml), candidate, revision, env))
      ensures ok <==> env.backupOk && env.tomlOk && !CandidateFails(site, old(toml), candidate, env) && env.stampOk
    {
      ghost var m := View();
      var original := toml;
      if !env.backupOk {
        return false;
      }
      backup := Some(original);
      ghost var first := [SetBackup(Some(original))];
      ghost var drop := When(Drops(site, original, candidate, env), SetBackup(None));
      Unrolled(m, first);
      if !env.tomlOk {
        if env.undoOk {
          backup := None;
        }
        Unrolled(m, first + drop);
        assert first + [] + drop == first + drop;
        return false;
      }
      toml := candidate;
      live := Left(env.render, candidate);
      ghost var staged := [SetToml(candidate), SetLive(live)];
      Unrolled(m, first + staged);
      if !env.render.Works? {
        RollBack(site, original, candidate, false, env);
        ok := false;
        Joined(m, first + staged, RollbackBody(site, original, candidate, false, env), drop);
        Regroup(first, staged, RollbackBody(site, original, candidate, false, env));
      } else {
        ok := FinishApply(site, original, candidate, revision, env);
        Joined(m, first + staged, FinishBody(site, original, candidate, revision, env), drop);
        Regroup(first, staged, FinishBody(site, original, candidate, revision, env));
      }
    }
  }

  lemma Joined(m: Machine, a: seq<Effect>, b: seq<Effect>, c: seq<Effect>)
    ensures DoAll(m, a + b + c) == DoAll(DoAll(m, a), b + c)
  {
    Regroup(a, b, c);
    DoAllAppend(m, a, b + c);
  }

  lemma {:induction false} DoAllAppend(m: Machine, a: seq<Effect>, b: seq<Effect>)
    ensures DoAll(m, a + b) == DoAll(DoAll(m, a), b)
  {
    if b == [] {
      assert a + b == a;
    } else {
      var n := |b| - 1;
      DoAllAppend(m, a, b[..n]);
      assert (a + b)[..|a| + n] == a + b[..n];
    }
  }

  /** Short scripts, step by step. */
  lemma Unrolled(m: Machine, es: seq<Effect>)
    ensures |es| >= 1 ==> DoAll(m, es[..1]) == Do(m, es[0])
    ensures forall k :: 1 <= k <= |es| ==> DoAll(m, es[..k]) == Do(DoAll(m, es[..k - 1]), es[k - 1])
    ensures DoAll(m, es[..|es|]) == DoAll(m, es)
  {
    assert es[..|es|] == es;
    forall k | 1 <= k <= |es| ensures DoAll(m, es[..k]) == Do(DoAll(m, es[..k - 1]), es[k - 1]) {
      assert es[..k][..k - 1] == es[..k - 1];
    }
  }

  // -------------------------------------------------------- crash points

  /** What is served is what the text says, unless the service cannot be restarted and offline changes are allowed. */
  predicate ServedRight(site: Site, m: Machine, text: string)
  {
    site.controllable || !site.offline ==> m.served == Some(site.endpoints(text))
  }

  /** Text, running config and served endpoints agree on `text`, and nothing is pending. */
  predicate Converged(site: Site, m: Machine, text: string)
  {
    m.backup.None? && m.toml == text && m.live == Some(text) && ServedRight(site, m, text)
  }

  /** `text` is in force, or a backup of it waits to be recovered. */
  predicate Held(site: Site, m: Machine, text: string)
  {
    Converged(site, m, text) || (m.backup == Some(text) && (!site.controllable ==> ServedRight(site, m, text)))
  }

  /**
   A failed candidate whose rollback restored the text and dropped the backup
   without getting the running config, or the service it had touched, back.
   */
  predicate RollbackLost(site: Site, original: string, candidate: string, env: ApplyEnv)
  {
    && env.backupOk && env.tomlOk && CandidateFails(site, original, candidate, env)
    && env.backTomlOk && env.backDropOk
    && (|| Left(env.backRender, original) != Some(original)
        || (env.render.Works? && ServeFails(site, original, candidate, env)
            && Left(env.backServe, site.endpoints(original)) != Some(site.endpoints(original))))
  }

  lemma BodyKeepsBackup(site: Site, original: string, candidate: string, revision: nat, env: ApplyEnv)
    ensures forall e :: e in Body(site, original, candidate, revision, env) ==>
              !e.SetBackup? && (!site.controllable ==> !e.SetServed?)
  {}

  lemma {:induction false} BackupKept(m: Machine, es: seq<Effect>)
    requires forall e :: e in es ==> !e.SetBackup?
    ensures DoAll(m, es).backup == m.backup
    ensures (forall e :: e in es ==> !e.SetServed?) ==> DoAll(m, es).served == m.served
  {
    if es != [] {
      var n := |es| - 1;
      assert es[n] in es;
      BackupKept(m, es[..n]);
    }
  }

  /** Once the backup is written and until it is dropped, the original is held. */
  lemma HeldInside(site: Site, m: Machine, candidate: string, revision: nat, env: ApplyEnv, k: nat)
    requires Converged(site, m, m.toml)
    requires k <= |Body(site, m.toml, candidate, revision, env)|
    ensures var body := Body(site, m.toml, candidate, revision, env);
            Held(site, DoAll(m, [SetBackup(Some(m.toml))] + body[..k]), m.toml)
  {
    var body := Body(site, m.toml, candidate, revision, env);
    var first := [SetBackup(Some(m.toml))];
    BodyKeepsBackup(site, m.toml, candidate, revision, env);
    DoAllAppend(m, first, body[..k]);
    Unrolled(m, first);
    assert forall e :: e in body[..k] ==> e in body;
    BackupKept(DoAll(m, first), body[..k]);
  }

  lemma RollbackEnds(site: Site, x: Machine, original: string, candidate: string, touched: bool, env: ApplyEnv)
    requires env.backTomlOk
    ensures DoAll(x, RollbackBody(site, original, candidate, touched, env))
         == x.(toml := original, live := Left(env.backRender, original),
               served := if touched then Left(env.backServe, site.endpoints(original)) else x.served)
  {
    Unrolled(x, RollbackBody(site, original, candidate, touched, env));
  }

  lemma FinishEnds(site: Site, x: Machine, original: string, candidate: string, revision: nat, env: ApplyEnv)
    ensures var s := DoAll(x, FinishBody(site, original, candidate, revision, env));
            if CannotServe(site, original, candidate) then
              env.backTomlOk ==> s == x.(toml := original, live := Left(env.backRender, original))
            else if ServeFails(site, original, candidate, env) then
              env.backTomlOk ==> s == x.(toml := original, live := Left(env.backRender, original),
                                         served := Left(env.backServe, site.endpoints(original)))
            else s == x.(served := ServedAfter(site, x, original, candidate),
                         stamp := if env.stampOk then revision else x.stamp)
  {
    var first := When(EndpointsChange(site, original, candidate) && site.controllable,
                      SetServed(Left(env.serve, site.endpoints(candidate))));
    Unrolled(x, first);
    if CannotServe(site, original, candidate) {
      DoAllAppend(x, first, RollbackBody(site, original, candidate, false, env));
      if env.backTomlOk { RollbackEnds(site, x, original, candidate, false, env); }
    } else if ServeFails(site, original, candidate, env) {
      DoAllAppend(x, first, RollbackBody(site, original, candidate, true, env));
      if env.backTomlOk { RollbackEnds(site, DoAll(x, first), original, candidate, true, env); }
    } else {
      DoAllAppend(x, first, When(env.stampOk, SetStamp(revision)));
      Unrolled(DoAll(x, first), When(env.stampOk, SetStamp(revision)));
    }
  }

  function ServedAfter(site: Site, m: Machine, original: string, candidate: string): Option<string>
  {
    if EndpointsChange(site, original, candidate) && site.controllable then Some(site.endpoints(candidate))
    else m.served
  }

  /** Where the body ends up, by case. */
  lemma BodyEnds(site: Site, m: Machine, candidate: string, revision: nat, env: ApplyEnv)
    requires env.backupOk
    ensures var t := m.toml;
            var s := DoAll(m, [SetBackup(Some(t))] + Body(site, t, candidate, revision, env));
            && s.backup == Some(t)
            && (!env.tomlOk ==> s == m.(backup := Some(t)))
            && (env.tomlOk && CandidateFails(site, t, candidate, env) && env.backTomlOk ==>
                 s == m.(backup := Some(t), live := Left(env.backRender, t),
                         served := if env.render.Works? && ServeFails(site, t, candidate, env)
                                   then Left(env.backServe, site.endpoints(t)) else m.served))
            && (env.tomlOk && !CandidateFails(site, t, candidate, env) ==>
                 s == m.(backup := Some(t), toml := candidate, live := Some(candidate),
                         served := ServedAfter(site, m, t, candidate),
                         stamp := if env.stampOk then revision else m.stamp))
  {
    var t := m.toml;
    var first, body := [SetBackup(Some(t))], Body(site, t, candidate, revision, env);
    Unrolled(m, first);
    DoAllAppend(m, first, body);
    var m1 := m.(backup := Some(t));
    BodyKeepsBackup(site, t, candidate, revision, env);
    BackupKept(m1, body);
    if env.tomlOk { StagedEnds(site, m1, candidate, revision, env); }
  }

  lemma StagedEnds(site: Site, m: Machine, candidate: string, revision: nat, env: ApplyEnv)
    requires env.tomlOk
    ensures var t := m.toml;
            var s := DoAll(m, Body(site, t, candidate, revision, env));
            && (CandidateFails(site, t, candidate, env) && env.backTomlOk ==>
                 s == m.(live := Left(env.backRender, t),
                         served := if env.render.Works? && ServeFails(site, t, candidate, env)
                                   then Left(env.backServe, site.endpoints(t)) else m.served))
            && (!CandidateFails(site, t, candidate, env) ==>
                 s == m.(toml := candidate, live := Some(candidate), served := ServedAfter(site, m, t, candidate),
                         stamp := if env.stampOk then revision else m.stamp))
  {
    var t := m.toml;
    var staged := [SetToml(candidate), SetLive(Left(env.render, candidate))];
    var m2 := m.(toml := candidate, live := Left(env.render, candidate));
    Unrolled(m, staged);
    if env.render.Works? {
      DoAllAppend(m, staged, FinishBody(site, t, candidate, revision, env));
      FinishEnds(site, m2, t, candidate, revision, env);
    } else {
      DoAllAppend(m, staged, RollbackBody(site, t, candidate, false, env));
      if env.backTomlOk { RollbackEnds(site, m2, t, candidate, false, env); }
    }
  }

  /** The stamp was written among the first `k` effects. */
  ghost predicate StampedBy(es: seq<Effect>, k: nat)
  {
    exists i :: 0 <= i < k <= |es| && es[i].SetStamp?
  }

  /**
   Every crash point of an apply. Before the backup is finally dropped the
   original is held; when the script has run to its end without keeping the
   backup, the original is held if and only if the rollback did not lose it,
   or the candidate is in force and stamped.
   */
  lemma EveryCrashPoint(site: Site, m: Machine, candidate: string, revision: nat, env: ApplyEnv, k: nat)
    requires Converged(site, m, m.toml)
    requires k <= |ApplyScript(site, m.toml, candidate, revision, env)|
    ensures var t := m.toml;
            var es := ApplyScript(site, t, candidate, revision, env);
            var s := DoAll(m, es[..k]);
            if k == |es| && env.backupOk && env.tomlOk && Drops(site, t, candidate, env) then
              if CandidateFails(site, t, candidate, env)
              then s.stamp == m.stamp && (Held(site, s, t) <==> !RollbackLost(site, t, candidate, env))
              else Converged(site, s, candidate) && s.stamp == revision
            else Held(site, s, t)
  {
    if env.backupOk {
      if k <= 1 + |Body(site, m.toml, candidate, revision, env)| {
        HeldBeforeDrop(site, m, candidate, revision, env, k);
      } else {
        var es := ApplyScript(site, m.toml, candidate, revision, env);
        assert k == |es| && es[..k] == es;
        HeldAtEnd(site, m, candidate, revision, env);
      }
    }
  }

  lemma HeldBeforeDrop(site: Site, m: Machine, candidate: string, revision: nat, env: ApplyEnv, k: nat)
    requires Converged(site, m, m.toml) && env.backupOk && k <= 1 + |Body(site, m.toml, candidate, revision, env)|
    ensures Held(site, DoAll(m, ApplyScript(site, m.toml, candidate, revision, env)[..k]), m.toml)
  {
    if k > 0 {
      WrappedPrefix(SetBackup(Some(m.toml)), Body(site, m.toml, candidate, revision, env),
                    When(Drops(site, m.toml, candidate, env), SetBackup(None)), k);
      HeldInside(site, m, candidate, revision, env, k - 1);
    }
  }

  lemma WrappedPrefix(first: Effect, body: seq<Effect>, last: seq<Effect>, k: nat)
    requires 0 < k <= 1 + |body|
    ensures ([first] + body + last)[..k] == [first] + body[..k - 1]
  {}

  lemma HeldAtEnd(site: Site, m: Machine, candidate: string, revision: nat, env: ApplyEnv)
    requires Converged(site, m, m.toml) && env.backupOk && Drops(site, m.toml, candidate, env)
    ensures var t := m.toml;
            var s := DoAll(m, ApplyScript(site, t, candidate, revision, env));
            if !env.tomlOk then Held(site, s, t)
            else if CandidateFails(site, t, candidate, env)
            then s.stamp == m.stamp && (Held(site, s, t) <==> !RollbackLost(site, t, candidate, env))
            else Converged(site, s, candidate) && s.stamp == revision
  {
    var kept := [SetBackup(Some(m.toml))] + Body(site, m.toml, candidate, revision, env);
    DoAllAppend(m, kept, [SetBackup(None)]);
    Unrolled(DoAll(m, kept), [SetBackup(None)]);
    BodyEnds(site, m, candidate, revision, env);
  }

  // ------------------------------------------------------------ recovery

  /** A recovery all of whose parts succeed converges the node. */
  lemma WholeRecovery(site: Site, s: Machine, text: string, env: RecoverEnv)
    requires Held(site, s, text) && RecoveryCompletes(site, s, env)
    ensures Converged(site, DoAll(s, RecoverScript(site, s, env)), text)
  {
    Unrolled(s, RecoverScript(site, s, env));
  }

  /** Short of its end, or with a part failing, a recovery has not dropped the backup. */
  lemma CutRecovery(site: Site, s: Machine, env: RecoverEnv, k: nat)
    requires k <= |RecoverScript(site, s, env)|
    requires k < |RecoverScript(site, s, env)| || !RecoveryCompletes(site, s, env)
    ensures var r := DoAll(s, RecoverScript(site, s, env)[..k]);
            r.backup == s.backup && (!site.controllable ==> r.served == s.served)
  {
    var es := RecoverScript(site, s, env)[..k];
    assert forall i :: 0 <= i < |es| ==> !es[i].SetBackup? && (!site.controllable ==> !es[i].SetServed?);
    BackupKept(s, es);
  }

  /** Recovery, cut short anywhere and with any failures, keeps what is held, and never the stamp. */
  lemma RecoveryKeepsHeld(site: Site, s: Machine, text: string, env: RecoverEnv, k: nat)
    requires Held(site, s, text) && k <= |RecoverScript(site, s, env)|
    ensures var r := DoAll(s, RecoverScript(site, s, env)[..k]);
            Held(site, r, text) && r.stamp == s.stamp
  {
    var es := RecoverScript(site, s, env);
    NoStampNoChange(s, es[..k]);
    if s.backup.None? {
      assert es[..k] == [];
    } else if k == |es| && RecoveryCompletes(site, s, env) {
      assert es[..k] == es;
      WholeRecovery(site, s, text, env);
    } else {
      CutRecovery(site, s, env, k);
    }
  }

  lemma RecoverySucceeds(site: Site, s: Machine, text: string)
    requires Held(site, s, text)
    ensures var r := DoAll(s, RecoverScript(site, s, ALL_GOOD));
            Converged(site, r, text) && r.stamp == s.stamp
  {
    WholeRecovery(site, s, text, ALL_GOOD);
    NoStampNoChange(s, RecoverScript(site, s, ALL_GOOD));
  }

  /** A recovery that died: how far it got and what failed on the way. */
  datatype Attempt = Attempt(env: RecoverEnv, reached: nat)

  function AfterAttempts(site: Site, s: Machine, tries: seq<Attempt>): Machine
    decreases |tries|
  {
    if tries == [] then s
    else
      var es := RecoverScript(site, s, tries[0].env);
      AfterAttempts(site, DoAll(s, es[..Min(tries[0].reached, |es|)]), tries[1..])
  }

  lemma {:induction false} AttemptsKeepHeld(site: Site, s: Machine, text: string, tries: seq<Attempt>)
    requires Held(site, s, text)
    ensures Held(site, AfterAttempts(site, s, tries), text) && AfterAttempts(site, s, tries).stamp == s.stamp
    decreases |tries|
  {
    if tries != [] {
      var es := RecoverScript(site, s, tries[0].env);
      var k := Min(tries[0].reached, |es|);
      RecoveryKeepsHeld(site, s, text, tries[0].env, k);
      AttemptsKeepHeld(site, DoAll(s, es[..k]), text, tries[1..]);
    }
  }

  lemma {:induction false} NoBackupNothingToDo(site: Site, s: Machine, tries: seq<Attempt>)
    requires s.backup.None?
    ensures AfterAttempts(site, s, tries) == s && RecoverScript(site, s, ALL_GOOD) == []
    decreases |tries|
  {
    if tries != [] { NoBackupNothingToDo(site, s, tries[1..]); }
  }

  lemma {:induction false} NoStampNoChange(m: Machine, es: seq<Effect>)
    requires forall i :: 0 <= i < |es| ==> !es[i].SetStamp?
    ensures DoAll(m, es).stamp == m.stamp
  {
    if es != [] { NoStampNoChange(m, es[..|es| - 1]); }
  }

  lemma {:induction false} NoServeNoChange(m: Machine, es: seq<Effect>)
    requires forall i :: 0 <= i < |es| ==> !es[i].SetServed?
    ensures DoAll(m, es).served == m.served
  {
    if es != [] { NoServeNoChange(m, es[..|es| - 1]); }
  }

  /** A service that cannot be restarted is left alone. */
  lemma ServiceLeftAlone(site: Site, m: Machine, candidate: string, revision: nat, env: ApplyEnv, k: nat)
    requires !site.controllable && k <= |ApplyScript(site, m.toml, candidate, revision, env)|
    ensures DoAll(m, ApplyScript(site, m.toml, candidate, revision, env)[..k]).served == m.served
  {
    var es := ApplyScript(site, m.toml, candidate, revision, env);
    forall i | 0 <= i < k ensures !es[..k][i].SetServed? {
      NoServeInScript(site, m.toml, candidate, revision, env, i);
    }
    NoServeNoChange(m, es[..k]);
  }

  lemma NoServeInScript(site: Site, original: string, candidate: string, revision: nat, env: ApplyEnv, i: nat)
    requires !site.controllable && i < |ApplyScript(site, original, candidate, revision, env)|
    ensures !ApplyScript(site, original, candidate, revision, env)[i].SetServed?
  {
    var body := Body(site, original, candidate, revision, env);
    BodyKeepsBackup(site, original, candidate, revision, env);
    WrappedAt(SetBackup(Some(original)), body, When(Drops(site, original, candidate, env), SetBackup(None)), i);
    assert 1 <= i <= |body| ==> body[i - 1] in body;
  }

  lemma {:induction false} AttemptsLeaveService(site: Site, s: Machine, tries: seq<Attempt>)
    requires !site.controllable
    ensures AfterAttempts(site, s, tries).served == s.served
    decreases |tries|
  {
    if tries != [] {
      var es := RecoverScript(site, s, tries[0].env);
      var k := Min(tries[0].reached, |es|);
      NoServeNoChange(s, es[..k]);
      AttemptsLeaveService(site, DoAll(s, es[..k]), tries[1..]);
    }
  }

  lemma HeldBeforeStamp(site: Site, m: Machine, candidate: string, revision: nat, env: ApplyEnv, k: nat)
    requires Converged(site, m, m.toml) && k <= |ApplyScript(site, m.toml, candidate, revision, env)|
    requires !StampedBy(ApplyScript(site, m.toml, candidate, revision, env), k)
    ensures var es := ApplyScript(site, m.toml, candidate, revision, env);
            var s := DoAll(m, es[..k]);
            && s.stamp == m.stamp
            && (Held(site, s, m.toml) <==> !(k == |es| && RollbackLost(site, m.toml, candidate, env)))
  {
    var t := m.toml;
    var es := ApplyScript(site, t, candidate, revision, env);
    EveryCrashPoint(site, m, candidate, revision, env, k);
    NoStampNoChange(m, es[..k]);
    if k == |es| && env.backupOk && env.tomlOk && Drops(site, t, candidate, env)
       && !CandidateFails(site, t, candidate, env) {
      CommittedIsStamped(site, t, candidate, revision, env);
      assert false;
    }
  }

  /** A lost rollback has dropped the backup. */
  lemma LostHasNoBackup(site: Site, m: Machine, candidate: string, revision: nat, env: ApplyEnv)
    requires RollbackLost(site, m.toml, candidate, env)
    ensures DoAll(m, ApplyScript(site, m.toml, candidate, revision, env)).backup.None?
  {
    var es := ApplyScript(site, m.toml, candidate, revision, env);
    assert es[|es| - 1] == SetBackup(None);
  }

  /**
   A crash at any point of an apply before the stamp, then any number of
   recoveries that die anywhere, then one that succeeds: the node is back on
   the pre-apply text, config, endpoints and stamp with no backup left, if and
   only if the apply had not already lost its rollback.
   */
  lemma CrashBeforeStampRestores(site: Site, m: Machine, candidate: string, revision: nat, env: ApplyEnv, k: nat,
                                 tries: seq<Attempt>)
    requires Converged(site, m, m.toml)
    requires k <= |ApplyScript(site, m.toml, candidate, revision, env)|
    requires !StampedBy(ApplyScript(site, m.toml, candidate, revision, env), k)
    ensures var es := ApplyScript(site, m.toml, candidate, revision, env);
            var s := AfterAttempts(site, DoAll(m, es[..k]), tries);
            (DoAll(s, RecoverScript(site, s, ALL_GOOD)) == m
             <==> !(k == |es| && RollbackLost(site, m.toml, candidate, env)))
  {
    var t := m.toml;
    var es := ApplyScript(site, t, candidate, revision, env);
    var crashed := DoAll(m, es[..k]);
    HeldBeforeStamp(site, m, candidate, revision, env, k);
    if k == |es| && RollbackLost(site, t, candidate, env) {
      assert es[..k] == es;
      LostHasNoBackup(site, m, candidate, revision, env);
      NoBackupNothingToDo(site, crashed, tries);
    } else {
      var s := AfterAttempts(site, crashed, tries);
      AttemptsKeepHeld(site, crashed, t, tries);
      RecoverySucceeds(site, s, t);
      if !site.controllable {
        ServiceLeftAlone(site, m, candidate, revision, env, k);
        AttemptsLeaveService(site, crashed, tries);
        NoServeNoChange(s, RecoverScript(site, s, ALL_GOOD));
      }
    }
  }

  lemma CommittedIsStamped(site: Site, original: string, candidate: string, revision: nat, env: ApplyEnv)
    requires env.backupOk && env.tomlOk && Drops(site, original, candidate, env)
    requires !CandidateFails(site, original, candidate, env)
    ensures var es := ApplyScript(site, original, candidate, revision, env); StampedBy(es, |es|)
  {
    var es := ApplyScript(site, original, candidate, revision, env);
    assert es[|es| - 2] == SetStamp(revision);
  }

  /**
   The window after the stamp: a crash there, or a backup that cannot be
   removed, makes the recoveries that follow, however many of them die, put
   the old text back under the new stamp.
   */
  lemma CrashAfterStampReverts(site: Site, m: Machine, candidate: string, revision: nat, env: ApplyEnv, k: nat,
                               tries: seq<Attempt>)
    requires Converged(site, m, m.toml)
    requires k <= |ApplyScript(site, m.toml, candidate, revision, env)|
    requires StampedBy(ApplyScript(site, m.toml, candidate, revision, env), k)
    ensures var crashed := DoAll(m, ApplyScript(site, m.toml, candidate, revision, env)[..k]);
            var s := AfterAttempts(site, crashed, tries);
            var r := DoAll(s, RecoverScript(site, s, ALL_GOOD));
            r.stamp == revision && Converged(site, r, if crashed.backup.Some? then m.toml else candidate)
  {
    var t := m.toml;
    var es := ApplyScript(site, t, candidate, revision, env);
    var crashed := DoAll(m, es[..k]);
    EveryCrashPoint(site, m, candidate, revision, env, k);
    var body := Body(site, t, candidate, revision, env);
    StampIsLastInBody(site, t, candidate, revision, env, k);
    BodyEnds(site, m, candidate, revision, env);
    assert es[..1 + |body|] == [SetBackup(Some(t))] + body;
    if k == 1 + |body| {
      AttemptsKeepHeld(site, crashed, t, tries);
      RecoverySucceeds(site, AfterAttempts(site, crashed, tries), t);
    } else {
      NoBackupNothingToDo(site, crashed, tries);
    }
  }

  lemma RollbackHasNoStamp(site: Site, original: string, candidate: string, touched: bool, env: ApplyEnv)
    ensures forall e :: e in RollbackBody(site, original, candidate, touched, env) ==> !e.SetStamp?
  {}

  lemma FinishStampsLast(site: Site, original: string, candidate: string, revision: nat, env: ApplyEnv, i: nat)
    requires i < |FinishBody(site, original, candidate, revision, env)|
    requires FinishBody(site, original, candidate, revision, env)[i].SetStamp?
    ensures i == |FinishBody(site, original, candidate, revision, env)| - 1 && env.stampOk
    ensures !CannotServe(site, original, candidate) && !ServeFails(site, original, candidate, env)
  {
    var es := FinishBody(site, original, candidate, revision, env);
    assert es[i] in es;
    RollbackHasNoStamp(site, original, candidate, false, env);
    RollbackHasNoStamp(site, original, candidate, true, env);
  }

  lemma BodyStampsLast(site: Site, original: string, candidate: string, revision: nat, env: ApplyEnv, i: nat)
    requires i < |Body(site, original, candidate, revision, env)|
    requires Body(site, original, candidate, revision, env)[i].SetStamp?
    ensures i == |Body(site, original, candidate, revision, env)| - 1
    ensures env.tomlOk && env.stampOk && !CandidateFails(site, original, candidate, env)
  {
    var body := Body(site, original, candidate, revision, env);
    assert i >= 2;
    if env.render.Works? {
      assert FinishBody(site, original, candidate, revision, env)[i - 2] == body[i];
      FinishStampsLast(site, original, candidate, revision, env, i - 2);
    } else {
      assert RollbackBody(site, original, candidate, false, env)[i - 2] == body[i];
      RollbackHasNoStamp(site, original, candidate, false, env);
    }
  }

  /** Which part of a wrapped list an index falls in. */
  lemma WrappedAt(first: Effect, body: seq<Effect>, last: seq<Effect>, i: nat)
    requires i < |[first] + body + last|
    ensures var e := ([first] + body + last)[i];
            if i == 0 then e == first else if i <= |body| then e == body[i - 1] else e in last
  {}

  lemma StampIsLastInBody(site: Site, original: string, candidate: string, revision: nat, env: ApplyEnv, k: nat)
    requires StampedBy(ApplyScript(site, original, candidate, revision, env), k)
    ensures env.backupOk && env.tomlOk && env.stampOk && !CandidateFails(site, original, candidate, env)
    ensures k >= 1 + |Body(site, original, candidate, revision, env)|
  {
    var es := ApplyScript(site, original, candidate, revision, env);
    var body := Body(site, original, candidate, revision, env);
    var i :| 0 <= i < k <= |es| && es[i].SetStamp?;
    WrappedAt(SetBackup(Some(original)), body, When(Drops(site, original, candidate, env), SetBackup(None)), i);
    BodyStampsLast(site, original, candidate, revision, env, i - 1);
  }

  // ------------------------------------------------------------- instances

  const PLAIN_SITE := Site((text: string) => "", true, false)
  const SETTLED := Machine("a", None, Some("a"), Some(""), 1)
  const ALL_WORKS := ApplyEnv(true, true, true, Works, Works, true, true, true, Works, Works, true)

  /**
   A candidate whose config fails, and whose rollback brings the text back but
   not the running config: the backup is gone and no recovery helps.
   */
  lemma LostRollbackExample()
    ensures var env := ALL_WORKS.(render := LeavesBehind(None), backRender := LeavesBehind(None));
            var s := DoAll(SETTLED, ApplyScript(PLAIN_SITE, "a", "b", 2, env));
            && Converged(PLAIN_SITE, SETTLED, "a") && RollbackLost(PLAIN_SITE, "a", "b", env)
            && s == SETTLED.(live := None) && DoAll(s, RecoverScript(PLAIN_SITE, s, ALL_GOOD)) == s
  {
    var env := ALL_WORKS.(render := LeavesBehind(None), backRender := LeavesBehind(None));
    var es := ApplyScript(PLAIN_SITE, "a", "b", 2, env);
    assert es == [SetBackup(Some("a")), SetToml("b"), SetLive(None), SetToml("a"), SetLive(None), SetBackup(None)];
    Unrolled(SETTLED, es);
    var s := DoAll(SETTLED, es);
    assert DoAll(SETTLED, es[..3]) == Machine("b", Some("a"), None, Some(""), 1);
    assert DoAll(SETTLED, es[..5]) == Machine("a", Some("a"), None, Some(""), 1);
    assert s == SETTLED.(live := None);
    assert RecoverScript(PLAIN_SITE, s, ALL_GOOD) == [];
    assert Converged(PLAIN_SITE, SETTLED, "a");
    assert RollbackLost(PLAIN_SITE, "a", "b", env);
  }

  /** Everything works, and a crash between the stamp and the drop puts the old text back under the new stamp. */
  lemma StampWindowExample()
    ensures var es := ApplyScript(PLAIN_SITE, "a", "b", 2, ALL_WORKS);
            var s := DoAll(SETTLED, es[..|es| - 1]);
            && |es| == 5 && StampedBy(es, 4) && s == Machine("b", Some("a"), Some("b"), Some(""), 2)
            && DoAll(s, RecoverScript(PLAIN_SITE, s, ALL_GOOD)) == SETTLED.(stamp := 2)
  {
    var es := ApplyScript(PLAIN_SITE, "a", "b", 2, ALL_WORKS);
    assert es == [SetBackup(Some("a")), SetToml("b"), SetLive(Some("b")), SetStamp(2), SetBackup(None)];
    Unrolled(SETTLED, es);
    var s := DoAll(SETTLED, es[..4]);
    var back := RecoverScript(PLAIN_SITE, s, ALL_GOOD);
    assert back == [SetToml("a"), SetLive(Some("a")), SetServed(Some("")), SetBackup(None)];
    Unrolled(s, back);
  }

  // -------------------------------------------------- any run of commands

  /** What planning a revision against a text comes to. */
  datatype Plan = Refused | Unchanged | Changed(candidate: string)

  /** One command: recover, then plan against the text found and apply; it dies after `reached` effects. */
  datatype Command = Command(plan: string -> Plan, revision: nat, recover: RecoverEnv, env: ApplyEnv, reached: nat)

  /** What the command does after its recovery has left `base`. */
  function ApplyPart(site: Site, m: Machine, c: Command, base: Machine): seq<Effect>
  {
    if !RecoveryCompletes(site, m, c.recover) then []
    else match c.plan(base.toml)
      case Refused => []
      case Unchanged => When(c.env.stampOk, SetStamp(c.revision))
      case Changed(candidate) => ApplyScript(site, base.toml, candidate, c.revision, c.env)
  }

  function CommandScript(site: Site, m: Machine, c: Command): seq<Effect>
  {
    var es := RecoverScript(site, m, c.recover);
    es + ApplyPart(site, m, c, DoAll(m, es))
  }

  function AfterCommand(site: Site, m: Machine, c: Command): Machine
  {
    var es := CommandScript(site, m, c);
    DoAll(m, es[..Min(c.reached, |es|)])
  }

  /** The text in force, or to be recovered. */
  function HeldText(m: Machine): string
  {
    if m.backup.Some? then m.backup.value else m.toml
  }

  predicate LosesRollback(site: Site, m: Machine, c: Command)
  {
    var plan := c.plan(HeldText(m));
    plan.Changed? && RollbackLost(site, HeldText(m), plan.candidate, c.env)
  }

  lemma ApplyKeepsSomeText(site: Site, m: Machine, candidate: string, revision: nat, env: ApplyEnv, k: nat)
    requires Converged(site, m, m.toml) && !RollbackLost(site, m.toml, candidate, env)
    requires k <= |ApplyScript(site, m.toml, candidate, revision, env)|
    ensures var next := DoAll(m, ApplyScript(site, m.toml, candidate, revision, env)[..k]);
            Held(site, next, HeldText(next)) && HeldText(next) in {m.toml, candidate}
  {
    EveryCrashPoint(site, m, candidate, revision, env, k);
  }

  /** Dying in two scripts is dying in the first, or after all of it and somewhere in the second. */
  lemma PrefixOfTwo(m: Machine, a: seq<Effect>, b: seq<Effect>, k: nat)
    requires k <= |a + b|
    ensures DoAll(m, (a + b)[..k]) == if k <= |a| then DoAll(m, a[..k]) else DoAll(DoAll(m, a), b[..k - |a|])
  {
    if k <= |a| {
      assert (a + b)[..k] == a[..k];
    } else {
      assert (a + b)[..k] == a + b[..k - |a|];
      DoAllAppend(m, a, b[..k - |a|]);
    }
  }

  lemma ApplyPartKeepsHeld(site: Site, m: Machine, c: Command, base: Machine, k: nat)
    requires Converged(site, base, base.toml) && k <= |ApplyPart(site, m, c, base)|
    requires c.plan(base.toml).Changed? ==> !RollbackLost(site, base.toml, c.plan(base.toml).candidate, c.env)
    ensures var next := DoAll(base, ApplyPart(site, m, c, base)[..k]);
            && Held(site, next, HeldText(next))
            && (HeldText(next) == base.toml || c.plan(base.toml) == Changed(HeldText(next)))
  {
    if RecoveryCompletes(site, m, c.recover) && c.plan(base.toml).Changed? {
      ApplyKeepsSomeText(site, base, c.plan(base.toml).candidate, c.revision, c.env, k);
    } else {
      Unrolled(base, ApplyPart(site, m, c, base));
    }
  }

  /** What holds at every point of one script, and then of another, holds at every point of both. */
  lemma EveryPointOfTwo(m: Machine, a: seq<Effect>, b: seq<Effect>, k: nat, good: Machine -> bool)
    requires k <= |a + b|
    requires forall i :: 0 <= i <= |a| ==> good(DoAll(m, a[..i]))
    requires b != [] ==> forall i :: 0 <= i <= |b| ==> good(DoAll(DoAll(m, a), b[..i]))
    ensures good(DoAll(m, (a + b)[..k]))
  {
    PrefixOfTwo(m, a, b, k);
  }

  /** `next` holds a text: the one `m` held, or the candidate planned against it. */
  predicate HoldsAfter(site: Site, m: Machine, c: Command, next: Machine)
  {
    && Held(site, next, HeldText(next))
    && (HeldText(next) == HeldText(m) || c.plan(HeldText(m)) == Changed(HeldText(next)))
  }

  lemma RecoverPartHolds(site: Site, m: Machine, c: Command, k: nat)
    requires Held(site, m, HeldText(m)) && k <= |RecoverScript(site, m, c.recover)|
    ensures HoldsAfter(site, m, c, DoAll(m, RecoverScript(site, m, c.recover)[..k]))
  {
    RecoveryKeepsHeld(site, m, HeldText(m), c.recover, k);
  }

  lemma ApplyPartHolds(site: Site, m: Machine, c: Command, k: nat)
    requires Held(site, m, HeldText(m)) && !LosesRollback(site, m, c)
    requires var base := DoAll(m, RecoverScript(site, m, c.recover));
             ApplyPart(site, m, c, base) != [] && k <= |ApplyPart(site, m, c, base)|
    ensures var base := DoAll(m, RecoverScript(site, m, c.recover));
            HoldsAfter(site, m, c, DoAll(base, ApplyPart(site, m, c, base)[..k]))
  {
    WholeRecovery(site, m, HeldText(m), c.recover);
    ApplyPartKeepsHeld(site, m, c, DoAll(m, RecoverScript(site, m, c.recover)), k);
  }

  /** One command leaves the text that was held, or its own candidate, held. */
  lemma CommandKeepsHeld(site: Site, m: Machine, c: Command)
    requires Held(site, m, HeldText(m)) && !LosesRollback(site, m, c)
    ensures HoldsAfter(site, m, c, AfterCommand(site, m, c))
  {
    var rs := RecoverScript(site, m, c.recover);
    var rest := ApplyPart(site, m, c, DoAll(m, rs));
    var good := next => HoldsAfter(site, m, c, next);
    forall i | 0 <= i <= |rs| ensures good(DoAll(m, rs[..i])) {
      RecoverPartHolds(site, m, c, i);
    }
    if rest != [] {
      forall i | 0 <= i <= |rest| ensures good(DoAll(DoAll(m, rs), rest[..i])) {
        ApplyPartHolds(site, m, c, i);
      }
    }
    EveryPointOfTwo(m, rs, rest, Min(c.reached, |rs + rest|), good);
  }

  function AfterCommands(site: Site, m: Machine, cs: seq<Command>): Machine
    decreases |cs|
  {
    if cs == [] then m else AfterCommands(site, AfterCommand(site, m, cs[0]), cs[1..])
  }

  ghost predicate NoneLosesRollback(site: Site, m: Machine, cs: seq<Command>)
    decreases |cs|
  {
    cs == [] || (!LosesRollback(site, m, cs[0]) && NoneLosesRollback(site, AfterCommand(site, m, cs[0]), cs[1..]))
  }

  /**
   Over any sequence of commands, each dying anywhere, as long as no rollback
   is lost: some complete text is in force or backed up, and one successful
   recovery converges the node on it.
   */
  lemma {:induction false} AlwaysRecoverable(site: Site, m: Machine, cs: seq<Command>)
    requires Held(site, m, HeldText(m)) && NoneLosesRollback(site, m, cs)
    ensures var s := AfterCommands(site, m, cs);
            Held(site, s, HeldText(s)) && Converged(site, DoAll(s, RecoverScript(site, s, ALL_GOOD)), HeldText(s))
    decreases |cs|
  {
    if cs == [] {
      RecoverySucceeds(site, m, HeldText(m));
    } else {
      CommandKeepsHeld(site, m, cs[0]);
      AlwaysRecoverable(site, AfterCommand(site, m, cs[0]), cs[1..]);
    }
  }

  // ------------------------------------------------ what a command achieves

  /** The config renders with the candidate, and new endpoint parameters are made live or need not be. */
  predicate GoesThrough(site: Site, original: string, candidate: string, env: ApplyEnv)
  {
    env.render.Works? &&
    (|| site.endpoints(original) == site.endpoints(candidate)
     || if site.controllable then env.serve.Works? else site.offline)
  }

  /**
   An apply that is not cut short ends with the candidate in force, stamped
   and nothing pending, if and only if every one of its parts got through.
   */
  lemma AppliesIff(site: Site, m: Machine, candidate: string, revision: nat, env: ApplyEnv)
    requires Converged(site, m, m.toml) && candidate != m.toml
    ensures var s := DoAll(m, ApplyScript(site, m.toml, candidate, revision, env));
            Converged(site, s, candidate) && s.stamp == revision <==>
            env.backupOk && env.tomlOk && GoesThrough(site, m.toml, candidate, env) && env.stampOk && env.dropOk
  {
    var t := m.toml;
    var es := ApplyScript(site, t, candidate, revision, env);
    assert es[..|es|] == es;
    EveryCrashPoint(site, m, candidate, revision, env, |es|);
    if env.backupOk && env.tomlOk && Drops(site, t, candidate, env) && CandidateFails(site, t, candidate, env) {
      BodyEnds(site, m, candidate, revision, env);
      var kept := [SetBackup(Some(t))] + Body(site, t, candidate, revision, env);
      DoAllAppend(m, kept, [SetBackup(None)]);
      Unrolled(DoAll(m, kept), [SetBackup(None)]);
    }
  }

  /** What applying to `base` achieved: nothing refused, the stamp if unchanged, all or not all of a change. */
  predicate Achieved(site: Site, c: Command, base: Machine, s: Machine)
  {
    match c.plan(base.toml)
    case Refused => s == base
    case Unchanged => s == base.(stamp := if c.env.stampOk then c.revision else base.stamp)
    case Changed(candidate) =>
      candidate != base.toml ==>
      (Converged(site, s, candidate) && s.stamp == c.revision <==>
       && c.env.backupOk && c.env.tomlOk && GoesThrough(site, base.toml, candidate, c.env)
       && c.env.stampOk && c.env.dropOk)
  }

  lemma ApplyPartAchieves(site: Site, m: Machine, c: Command, base: Machine)
    requires Converged(site, base, base.toml) && RecoveryCompletes(site, m, c.recover)
    ensures Achieved(site, c, base, DoAll(base, ApplyPart(site, m, c, base)))
  {
    match c.plan(base.toml) {
      case Refused =>
      case Unchanged => Unrolled(base, ApplyPart(site, m, c, base));
      case Changed(candidate) =>
        if candidate != base.toml { AppliesIff(site, base, candidate, c.revision, c.env); }
    }
  }

  lemma RecoveryKeepsStamp(site: Site, m: Machine, env: RecoverEnv)
    ensures DoAll(m, RecoverScript(site, m, env)).stamp == m.stamp
  {
    NoStampNoChange(m, RecoverScript(site, m, env));
  }

  /**
   A whole command, from any state something can be recovered from. If its
   recovery fails it does no more. Otherwise the text is recovered, and what
   is planned against it is achieved: nothing if it is refused, the stamp if it
   changes nothing, and else the candidate in force and stamped exactly as above.
   */
  lemma CommandDoes(site: Site, m: Machine, c: Command)
    requires Held(site, m, HeldText(m)) && c.reached >= |CommandScript(site, m, c)|
    ensures var base := DoAll(m, RecoverScript(site, m, c.recover));
            if RecoveryCompletes(site, m, c.recover)
            then && Converged(site, base, HeldText(m)) && base.stamp == m.stamp
                 && Achieved(site, c, base, AfterCommand(site, m, c))
            else AfterCommand(site, m, c) == base
  {
    var rs := RecoverScript(site, m, c.recover);
    var rest := ApplyPart(site, m, c, DoAll(m, rs));
    WholeScript(m, rs, rest, c.reached);
    if RecoveryCompletes(site, m, c.recover) {
      WholeRecovery(site, m, HeldText(m), c.recover);
      RecoveryKeepsStamp(site, m, c.recover);
      ApplyPartAchieves(site, m, c, DoAll(m, rs));
    }
  }

  lemma WholeScript(m: Machine, a: seq<Effect>, b: seq<Effect>, reached: nat)
    requires reached >= |a + b|
    ensures DoAll(m, (a + b)[..Min(reached, |a + b|)]) == DoAll(DoAll(m, a), b)
  {
    assert (a + b)[..|a + b|] == a + b;
    DoAllAppend(m, a, b);
  }
}
