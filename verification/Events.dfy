/**
 Wake-up flags set by the event channel and the schedule that consumes them
 (apps/provisioning-agent/src/events.rs), with the event task free to run
 between any two of the schedule's own reads.
 */
module Events {
  datatype Channel = Jobs | Authorizations | Leases

  /** When each channel is next reconciled whatever happens. */
  datatype Alarms = Alarms(claim: int, authorizations: int, leases: int) {
    function At(c: Channel): int
    {
      match c
      case Jobs => claim
      case Authorizations => authorizations
      case Leases => leases
    }

    function Put(c: Channel, t: int): (r: Alarms)
      ensures r.At(c) == t && forall d :: d != c ==> r.At(d) == At(d)
    {
      match c
      case Jobs => this.(claim := t)
      case Authorizations => this.(authorizations := t)
      case Leases => this.(leases := t)
    }
  }

  /** Where the main loop is: outside, or inside `due` called at `now` with the first `asked` flags swapped out. */
  datatype Stage = Outside | Inside(now: int, asked: nat, seen: set<Channel>)

  datatype Node = Node(flags: set<Channel>, healthy: bool, alarms: Alarms, clock: int, stage: Stage)

  datatype Step =
    | Mark(channel: Channel)
    | SetHealthy(healthy: bool)
    | Call(now: int)
    | Take
    | Decide
    | Retry(channel: Channel, now: int)

  const ORDER: seq<Channel> := [Jobs, Authorizations, Leases]

  function Place(c: Channel): (i: nat)
    ensures i < |ORDER| && ORDER[i] == c && forall j :: 0 <= j < |ORDER| && ORDER[j] == c ==> j == i
  {
    match c
    case Jobs => 0
    case Authorizations => 1
    case Leases => 2
  }

  /** What a call decides: everything while the channel is down, else what was flagged or is due. */
  function Fired(n: Node): set<Channel>
    requires n.stage.Inside?
  {
    set c: Channel | !n.healthy || c in n.stage.seen || n.stage.now >= n.alarms.At(c)
  }

  function Rearmed(a: Alarms, fired: set<Channel>, t: int): (r: Alarms)
    ensures forall c :: r.At(c) == if c in fired then t else a.At(c)
  {
    Alarms(if Jobs in fired then t else a.claim, if Authorizations in fired then t else a.authorizations,
           if Leases in fired then t else a.leases)
  }

  /** The two tasks share only the flags; retries and calls belong to the main loop, whose clock never goes back. */
  predicate Enabled(n: Node, step: Step)
  {
    match step
    case Mark(_) => true
    case SetHealthy(_) => true
    case Call(now) => n.stage.Outside? && now >= n.clock
    case Take => n.stage.Inside? && n.stage.asked < |ORDER|
    case Decide => n.stage.Inside? && n.stage.asked == |ORDER|
    case Retry(_, now) => n.stage.Outside? && now >= n.clock
  }

  function Next(n: Node, reconcile: nat, step: Step): Node
    requires Enabled(n, step)
  {
    match step
    case Mark(c) => n.(flags := n.flags + {c})
    case SetHealthy(h) => n.(healthy := h)
    case Call(now) => n.(stage := Inside(now, 0, {}), clock := now)
    case Take =>
      var c := ORDER[n.stage.asked];
      n.(flags := n.flags - {c}, stage := Inside(n.stage.now, n.stage.asked + 1, n.stage.seen + (n.flags * {c})))
    case Decide => n.(alarms := Rearmed(n.alarms, Fired(n), n.stage.now + reconcile), stage := Outside)
    case Retry(c, now) => n.(alarms := n.alarms.Put(c, now), clock := now)
  }

  // ---------------------------------------------------------------- code

  class Wakeups {
    var jobs: bool
    var authorizations: bool
    var leases: bool
    var healthy: bool

    ghost function Flags(): set<Channel>
      reads this
    {
      (if jobs then {Jobs} else {}) + (if authorizations then {Authorizations} else {})
      + (if leases then {Leases} else {})
    }

    constructor ()
      ensures Flags() == {} && !healthy
    {
      jobs, authorizations, leases, healthy := false, false, false, false;
    }

    /** The three swaps a call starts with. */
    method TakeAll() returns (j: bool, a: bool, l: bool)
      modifies this
      ensures j <==> Jobs in old(Flags())
      ensures a <==> Authorizations in old(Flags())
      ensures l <==> Leases in old(Flags())
      ensures Flags() == {} && healthy == old(healthy)
    {
      j, a, l := jobs, authorizations, leases;
      jobs, authorizations, leases := false, false, false;
    }

    method MarkOne(channel: string)
      modifies this
      ensures Flags() == old(Flags()) + Meant(channel) && healthy == old(healthy)
    {
      if channel == "jobs" {
        jobs := true;
      } else if channel == "authorizations" {
        authorizations := true;
      } else if channel == "leases" {
        leases := true;
      }
    }

    /** Unknown channel names are ignored. */
    method MarkAll(channels: seq<string>)
      modifies this
      ensures Flags() == old(Flags()) + Named(channels) && healthy == old(healthy)
    {
      for i := 0 to |channels|
        invariant Flags() == old(Flags()) + Named(channels[..i]) && healthy == old(healthy)
      {
        MarkOne(channels[i]);
        NamedGrows(channels, i);
      }
      assert channels[..|channels|] == channels;
    }
  }

  /** The channels whose names are listed. */
  function Named(channels: seq<string>): set<Channel>
  {
    set c | Name(c) in channels
  }

  function Name(c: Channel): string
  {
    match c
    case Jobs => "jobs"
    case Authorizations => "authorizations"
    case Leases => "leases"
  }

  function Meant(channel: string): (r: set<Channel>)
    ensures r == set c | Name(c) == channel
  {
    NamesDiffer();
    if channel == "jobs" then {Jobs}
    else if channel == "authorizations" then {Authorizations}
    else if channel == "leases" then {Leases} else {}
  }

  lemma NamesDiffer()
    ensures forall c, d :: Name(c) == Name(d) ==> c == d
  {
    assert |Name(Jobs)| == 4 && |Name(Authorizations)| == 14 && |Name(Leases)| == 6;
  }

  lemma NamedGrows(channels: seq<string>, i: nat)
    requires i < |channels|
    ensures Named(channels[..i + 1]) == Named(channels[..i]) + Meant(channels[i])
  {
    assert channels[..i + 1] == channels[..i] + [channels[i]];
  }

  class Schedule {
    const reconcile: nat
    var nextClaim: int
    var nextAuthorizations: int
    var nextLeases: int

    ghost function View(wake: Wakeups, clock: int): Node
      reads this, wake
    {
      Node(wake.Flags(), wake.healthy, Alarms(nextClaim, nextAuthorizations, nextLeases), clock, Outside)
    }

    constructor (interval: nat, now: int)
      ensures reconcile == interval && nextClaim == nextAuthorizations == nextLeases == now
    {
      reconcile := interval;
      nextClaim, nextAuthorizations, nextLeases := now, now, now;
    }

    /** A call no mark falls into is the five steps of `due` in a row. */
    method Due(now: int, wake: Wakeups) returns (claim: bool, authorizations: bool, leases: bool)
      modifies this, wake
      ensures var n := old(View(wake, now));
              var ready := n.(flags := {}, stage := Inside(now, 3, n.flags));
              && After([Call(now), Take, Take, Take], n, reconcile) == ready
              && View(wake, now) == Next(ready, reconcile, Decide)
              && (claim <==> Jobs in Fired(ready)) && (authorizations <==> Authorizations in Fired(ready))
              && (leases <==> Leases in Fired(ready))
    {
      CallTakesAll(View(wake, now), reconcile, now);
      var jobs, auth, lease := wake.TakeAll();
      var primary := wake.healthy;
      claim := !primary || jobs || now >= nextClaim;
      authorizations := !primary || auth || now >= nextAuthorizations;
      leases := !primary || lease || now >= nextLeases;
      nextClaim := if claim then now + reconcile else nextClaim;
      nextAuthorizations := if authorizations then now + reconcile else nextAuthorizations;
      nextLeases := if leases then now + reconcile else nextLeases;
    }

    /** A step that failed, or a job that was processed: go again at the next call. */
    method RetryAt(c: Channel, now: int, wake: Wakeups)
      modifies this
      ensures View(wake, now) == Next(old(View(wake, now)), reconcile, Retry(c, now))
    {
      match c {
        case Jobs => nextClaim := now;
        case Authorizations => nextAuthorizations := now;
        case Leases => nextLeases := now;
      }
    }
  }

  /** The node after these steps, as far as they are enabled. */
  function After(steps: seq<Step>, n: Node, reconcile: nat): Node
    decreases |steps|
  {
    if steps == [] || !Enabled(n, steps[0]) then n else After(steps[1..], Next(n, reconcile, steps[0]), reconcile)
  }

  lemma CallTakesAll(n: Node, reconcile: nat, now: int)
    requires n.stage.Outside? && n.clock == now
    ensures After([Call(now), Take, Take, Take], n, reconcile) == n.(flags := {}, stage := Inside(now, 3, n.flags))
  {
    var a := Next(n, reconcile, Call(now));
    var b := Next(a, reconcile, Take);
    var c := Next(b, reconcile, Take);
    var d := Next(c, reconcile, Take);
    forall ch: Channel ensures ch !in d.flags && (ch in d.stage.seen <==> ch in n.flags) {
      assert Place(ch) < |ORDER|;
    }
    assert d.flags == {} && d.stage.seen == n.flags;
    assert [Call(now), Take, Take, Take][1..] == [Take, Take, Take];
    assert [Take, Take, Take][1..] == [Take, Take] && [Take, Take][1..] == [Take];
  }

  // ---------------------------------------------------------------- runs

  datatype Run = Run(nodes: seq<Node>, steps: seq<Step>, reconcile: nat)

  /** Nothing is flagged and every channel is due at the start. */
  predicate Start(n: Node)
  {
    n.flags == {} && n.stage.Outside? && n.alarms == Alarms(n.clock, n.clock, n.clock)
  }

  ghost predicate Valid(r: Run)
  {
    && |r.nodes| == |r.steps| + 1 && Start(r.nodes[0])
    && forall k :: 0 <= k < |r.steps| ==>
         Enabled(r.nodes[k], r.steps[k]) && r.nodes[k + 1] == Next(r.nodes[k], r.reconcile, r.steps[k])
  }

  /** Step `k` swaps out the flag of `c`. */
  ghost predicate Takes(r: Run, k: nat, c: Channel)
  {
    Valid(r) && k < |r.steps| && r.steps[k].Take? && ORDER[r.nodes[k].stage.asked] == c
  }

  /** Step `k` ends a call that fires `c`. */
  ghost predicate Fires(r: Run, k: nat, c: Channel)
  {
    Valid(r) && k < |r.steps| && r.steps[k].Decide? && c in Fired(r.nodes[k])
  }

  ghost predicate FiresWithin(r: Run, i: nat, j: nat, c: Channel)
  {
    exists k :: i <= k < j && Fires(r, k, c)
  }

  /** A mark of `c` still waits to be acted on. */
  predicate Owed(n: Node, c: Channel)
  {
    c in n.flags || (n.stage.Inside? && c in n.stage.seen)
  }

  /** The call in progress cannot miss the mark. */
  predicate Caught(n: Node, c: Channel)
  {
    n.stage.Inside? && (c in n.stage.seen || (c in n.flags && n.stage.asked <= Place(c)))
  }

  lemma {:induction false} OwedUntilFired(r: Run, i: nat, k: nat, c: Channel)
    requires Valid(r) && i <= k <= |r.steps| && Owed(r.nodes[i], c) && !FiresWithin(r, i, k, c)
    ensures Owed(r.nodes[k], c)
    decreases k
  {
    if i < k {
      assert !FiresWithin(r, i, k - 1, c);
      OwedUntilFired(r, i, k - 1, c);
      assert !Fires(r, k - 1, c);
    }
  }

  lemma {:induction false} CaughtUntilDecided(r: Run, i: nat, k: nat, c: Channel)
    requires Valid(r) && i <= k <= |r.steps| && Caught(r.nodes[i], c)
    requires forall j :: i <= j < k ==> !r.steps[j].Decide?
    ensures Caught(r.nodes[k], c)
    decreases k
  {
    if i < k {
      CaughtUntilDecided(r, i, k - 1, c);
    }
  }

  /**
   No mark is lost: whatever the event task does meanwhile, by the end of the
   first call that starts after a mark its channel has fired.
   */
  lemma NoMarkLost(r: Run, i: nat, s: nat, d: nat)
    requires Valid(r) && i < s < d < |r.steps| && r.steps[i].Mark? && r.steps[s].Call? && r.steps[d].Decide?
    requires forall j :: s < j < d ==> !r.steps[j].Decide?
    ensures FiresWithin(r, i + 1, d + 1, r.steps[i].channel)
  {
    var c := r.steps[i].channel;
    if !FiresWithin(r, i + 1, d + 1, c) {
      assert !FiresWithin(r, i + 1, s, c);
      OwedUntilFired(r, i + 1, s, c);
      assert Caught(r.nodes[s + 1], c);
      CaughtUntilDecided(r, s + 1, d, c);
      assert Fires(r, d, c);
    }
  }

  // ------------------------------------------------------- one mark, once

  ghost predicate MarkedSince(r: Run, k: nat, c: Channel)
  {
    Valid(r) && k <= |r.steps| &&
    exists i :: 0 <= i < k && r.steps[i] == Mark(c) && forall j :: i < j < k ==> !Takes(r, j, c)
  }

  /** A flag is up exactly when a mark has come since it was last taken down. */
  lemma {:induction false} FlagIff(r: Run, k: nat, c: Channel)
    requires Valid(r) && k <= |r.steps|
    ensures c in r.nodes[k].flags <==> MarkedSince(r, k, c)
  {
    if k > 0 {
      FlagIff(r, k - 1, c);
      MarkedStep(r, k - 1, c);
    }
  }

  /** One step: a mark starts it, a take ends it, and nothing else matters. */
  lemma MarkedStep(r: Run, k: nat, c: Channel)
    requires Valid(r) && k < |r.steps|
    ensures MarkedSince(r, k + 1, c) <==> r.steps[k] == Mark(c) || (MarkedSince(r, k, c) && !Takes(r, k, c))
  {
    if MarkedSince(r, k, c) && !Takes(r, k, c) {
      var i :| 0 <= i < k && r.steps[i] == Mark(c) && forall j :: i < j < k ==> !Takes(r, j, c);
      assert forall j :: i < j < k + 1 ==> !Takes(r, j, c);
    }
    if MarkedSince(r, k + 1, c) && r.steps[k] != Mark(c) {
      var i :| 0 <= i < k + 1 && r.steps[i] == Mark(c) && forall j :: i < j < k + 1 ==> !Takes(r, j, c);
      assert i < k && !Takes(r, k, c);
    }
  }

  // ------------------------------------------------------------ reconcile

  /** The alarm is at most one interval past the last firing, or already due. */
  lemma {:induction false} AlarmBound(r: Run, i: nat, k: nat, c: Channel)
    requires Fires(r, i, c) && i < k <= |r.steps| && !FiresWithin(r, i + 1, k, c)
    ensures var n, fired := r.nodes[k], r.nodes[i].stage.now;
            n.alarms.At(c) <= n.clock || n.alarms.At(c) == fired + r.reconcile
    ensures r.nodes[k].stage.Inside? ==> r.nodes[k].stage.now == r.nodes[k].clock
    decreases k
  {
    CallTimeIsClock(r, k);
    if i + 1 < k {
      assert !FiresWithin(r, i + 1, k - 1, c);
      AlarmBound(r, i, k - 1, c);
      assert !Fires(r, k - 1, c);
    }
  }

  lemma {:induction false} CallTimeIsClock(r: Run, k: nat)
    requires Valid(r) && k <= |r.steps|
    ensures r.nodes[k].stage.Inside? ==> r.nodes[k].stage.now == r.nodes[k].clock
  {
    if k > 0 { CallTimeIsClock(r, k - 1); }
  }

  /** A call that ends a whole reconcile interval after a channel last fired fires it again. */
  lemma ReconcileFires(r: Run, i: nat, k: nat, c: Channel)
    requires Fires(r, i, c) && i < k < |r.steps| && r.steps[k].Decide? && !FiresWithin(r, i + 1, k, c)
    requires r.nodes[k].stage.now >= r.nodes[i].stage.now + r.reconcile
    ensures Fires(r, k, c)
  {
    AlarmBound(r, i, k, c);
  }

  // ------------------------------------------------- exactly when it fires

  /** The call in progress has taken down a flag of `c` that was up. */
  ghost predicate TakenNow(r: Run, k: nat, c: Channel)
  {
    Valid(r) && k <= |r.steps| &&
    exists t :: 0 <= t < k && Takes(r, t, c) && MarkedSince(r, t, c) && forall j :: t < j < k ==> !r.steps[j].Call?
  }

  lemma TakenStep(r: Run, k: nat, c: Channel)
    requires Valid(r) && k < |r.steps|
    ensures TakenNow(r, k + 1, c) <==>
            (Takes(r, k, c) && MarkedSince(r, k, c)) || (TakenNow(r, k, c) && !r.steps[k].Call?)
  {
    if TakenNow(r, k, c) && !r.steps[k].Call? {
      var t :| 0 <= t < k && Takes(r, t, c) && MarkedSince(r, t, c) && forall j :: t < j < k ==> !r.steps[j].Call?;
      assert forall j :: t < j < k + 1 ==> !r.steps[j].Call?;
    }
    if TakenNow(r, k + 1, c) && !(Takes(r, k, c) && MarkedSince(r, k, c)) {
      var t :| 0 <= t < k + 1 && Takes(r, t, c) && MarkedSince(r, t, c)
               && forall j :: t < j < k + 1 ==> !r.steps[j].Call?;
      assert t < k && !r.steps[k].Call?;
    }
  }

  lemma SeenStep(r: Run, k: nat, c: Channel)
    requires Valid(r) && k < |r.steps| && r.nodes[k + 1].stage.Inside?
    ensures if r.steps[k].Call? then c !in r.nodes[k + 1].stage.seen
            else r.nodes[k].stage.Inside? &&
                 (c in r.nodes[k + 1].stage.seen <==>
                    c in r.nodes[k].stage.seen || (Takes(r, k, c) && c in r.nodes[k].flags))
  {}

  lemma {:induction false} SeenIff(r: Run, k: nat, c: Channel)
    requires Valid(r) && k <= |r.steps| && r.nodes[k].stage.Inside?
    ensures c in r.nodes[k].stage.seen <==> TakenNow(r, k, c)
  {
    TakenStep(r, k - 1, c);
    SeenStep(r, k - 1, c);
    if !r.steps[k - 1].Call? {
      SeenIff(r, k - 1, c);
      FlagIff(r, k - 1, c);
    }
  }

  /** Step `k` sets the alarm of `c`. */
  ghost predicate Rearms(r: Run, k: nat, c: Channel)
    requires Valid(r) && k < |r.steps|
  {
    Fires(r, k, c) || (r.steps[k].Retry? && r.steps[k].channel == c)
  }

  /** To when: the start, the retry, or an interval after the call that fired. */
  function AlarmSet(r: Run, j: nat): int
    requires j < |r.nodes| && j <= |r.steps|
    requires j > 0 && !r.steps[j - 1].Retry? ==> r.nodes[j - 1].stage.Inside?
  {
    if j == 0 then r.nodes[0].clock
    else if r.steps[j - 1].Retry? then r.steps[j - 1].now
    else r.nodes[j - 1].stage.now + r.reconcile
  }

  lemma AlarmOrigin(r: Run, k: nat, c: Channel) returns (j: nat)
    requires Valid(r) && k <= |r.steps|
    ensures j <= k && (j > 0 ==> Rearms(r, j - 1, c)) && forall i :: j <= i < k ==> !Rearms(r, i, c)
    ensures r.nodes[k].alarms.At(c) == AlarmSet(r, j)
  {
    j := k;
    while j > 0 && !Rearms(r, j - 1, c)
      invariant j <= k && r.nodes[j].alarms.At(c) == r.nodes[k].alarms.At(c)
      invariant forall i :: j <= i < k ==> !Rearms(r, i, c)
    {
      j := j - 1;
    }
  }

  /**
   A call fires a channel if and only if the event channel is down when it
   decides, or it took down a mark of the channel, or the alarm last set, at
   the start, by a retry or by the last firing, has come.
   */
  lemma FiresIff(r: Run, k: nat, c: Channel) returns (j: nat)
    requires Valid(r) && k < |r.steps| && r.steps[k].Decide?
    ensures j <= k && (j > 0 ==> Rearms(r, j - 1, c)) && forall i :: j <= i < k ==> !Rearms(r, i, c)
    ensures Fires(r, k, c) <==> !r.nodes[k].healthy || TakenNow(r, k, c) || AlarmSet(r, j) <= r.nodes[k].stage.now
  {
    assert Enabled(r.nodes[k], r.steps[k]);
    SeenIff(r, k, c);
    j := AlarmOrigin(r, k, c);
  }

  /** Runs leave the event task free at every point, and the main loop at every point of its own. */
  lemma AnyStepNext(r: Run, step: Step)
    requires Valid(r)
    requires var n := r.nodes[|r.nodes| - 1];
             || step.Mark? || step.SetHealthy?
             || (n.stage.Outside? && (step.Call? || step.Retry?) && n.clock <= step.now)
             || (n.stage.Inside? && step == if n.stage.asked < 3 then Take else Decide)
    ensures Enabled(r.nodes[|r.nodes| - 1], step)
    ensures var n := r.nodes[|r.nodes| - 1];
            Valid(Run(r.nodes + [Next(n, r.reconcile, step)], r.steps + [step], r.reconcile))
  {
    AskedBound(r, |r.steps|);
  }

  lemma {:induction false} AskedBound(r: Run, k: nat)
    requires Valid(r) && k <= |r.steps|
    ensures r.nodes[k].stage.Inside? ==> r.nodes[k].stage.asked <= 3
  {
    if k > 0 { AskedBound(r, k - 1); }
  }

  // --------------------------------------------------------------- budget

  function One(b: bool): nat { if b then 1 else 0 }

  ghost function Firings(r: Run, k: nat, c: Channel): nat
    requires Valid(r) && k <= |r.steps|
  {
    if k == 0 then 0 else Firings(r, k - 1, c) + One(Fires(r, k - 1, c))
  }

  /** What may make a channel fire early: a mark, a retry, or a call while the event channel is down. */
  ghost predicate Excuse(r: Run, k: nat, c: Channel)
    requires Valid(r) && k < |r.steps|
  {
    || r.steps[k] == Mark(c)
    || (r.steps[k].Retry? && r.steps[k].channel == c)
    || (r.steps[k].Decide? && !r.nodes[k].healthy)
  }

  ghost function Excuses(r: Run, k: nat, c: Channel): nat
    requires Valid(r) && k <= |r.steps|
  {
    if k == 0 then 0 else Excuses(r, k - 1, c) + One(Excuse(r, k - 1, c))
  }

  /** Marks of `c` in hand: one in its flag, one in the call in progress. */
  function InHand(n: Node, c: Channel): nat
  {
    One(c in n.flags) + One(n.stage.Inside? && c in n.stage.seen)
  }

  /** Firings and marks in hand, less the excuses that account for them. */
  ghost function Debt(r: Run, k: nat, c: Channel): int
    requires Valid(r) && k <= |r.steps|
  {
    Firings(r, k, c) + InHand(r.nodes[k], c) - Excuses(r, k, c)
  }

  /** The debt grows by one only when the alarm moves on by a whole interval. */
  lemma StepPays(r: Run, k: nat, c: Channel)
    requires Valid(r) && k < |r.steps| && r.nodes[k].alarms.At(c) <= r.nodes[k].clock + r.reconcile
    ensures var grows := Debt(r, k + 1, c) - Debt(r, k, c);
            var moves := r.nodes[k + 1].alarms.At(c) - r.nodes[k].alarms.At(c);
            || (grows == 1 && moves >= r.reconcile)
            || (grows == 0 && moves >= 0)
            || (grows < 0 && moves + r.reconcile >= 0)
    ensures r.nodes[k + 1].alarms.At(c) <= r.nodes[k + 1].clock + r.reconcile
  {
    CallTimeIsClock(r, k);
  }

  lemma {:induction false} Paid(r: Run, k: nat, c: Channel)
    requires Valid(r) && k <= |r.steps|
    ensures r.reconcile * Debt(r, k, c) <= r.nodes[k].alarms.At(c) - r.nodes[0].clock
    ensures r.nodes[k].alarms.At(c) <= r.nodes[k].clock + r.reconcile
    decreases k
  {
    if k > 0 {
      Paid(r, k - 1, c);
      StepPays(r, k - 1, c);
      Scaled(r.reconcile, Debt(r, k - 1, c), Debt(r, k, c));
    }
  }

  lemma Scaled(n: nat, a: int, b: int)
    requires b <= a + 1
    ensures if b == a + 1 then n * b <= n * a + n else if b == a then n * b == n * a else n * b + n <= n * a
  {
    if b < a { Product(n, a - 1 - b, b); }
  }

  lemma Product(n: nat, d: nat, b: int)
    ensures n * b + n <= n * (b + 1 + d)
  {
    assert n * (b + 1 + d) == n * b + n + n * d;
  }

  /**
   Event-driven load: whatever happens, a channel fires at most once per
   reconcile interval, once more, and once per mark, retry or call made while
   the event channel is down.
   */
  lemma FiringBudget(r: Run, k: nat, c: Channel)
    requires Valid(r) && k <= |r.steps|
    ensures r.reconcile * Firings(r, k, c) <= r.reconcile * (Excuses(r, k, c) + 1) + r.nodes[k].clock - r.nodes[0].clock
  {
    Paid(r, k, c);
    Spread(r.reconcile, Firings(r, k, c), InHand(r.nodes[k], c), Excuses(r, k, c));
  }

  lemma Spread(n: nat, fired: nat, held: nat, excused: nat)
    ensures n * fired <= n * (fired + held - excused) + n * excused
    ensures n * (excused + 1) == n * excused + n
  {
    assert n * (fired + held - excused) + n * excused == n * (fired + held);
    assert n * held >= 0;
  }
}
