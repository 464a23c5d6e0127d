/**
 The operation-id dedup log: one entry per job, pruned by age and count on
 every record (apps/provisioning-agent/src/op_dedup.rs), proved equal to a
 single cut of the whole history.
 */
module OpDedup {
  import opened Prelude

  const MAX_ENTRIES := 4096
  const RETENTION_SECS := 24 * 60 * 60

  datatype Outcome = Complete(result: string) | Fail(message: string)

  datatype Entry = Entry(jobId: int, outcome: Outcome, at: nat)

  function Without(s: seq<Entry>, jobId: int): seq<Entry>
  {
    if s == [] then [] else (if s[0].jobId == jobId then [] else [s[0]]) + Without(s[1..], jobId)
  }

  function Recent(s: seq<Entry>, cutoff: int): seq<Entry>
  {
    if s == [] then [] else (if s[0].at >= cutoff then [s[0]] else []) + Recent(s[1..], cutoff)
  }

  /** Saturating: no entry is older than the epoch. */
  function Cutoff(now: nat): nat
  {
    if now < RETENTION_SECS then 0 else now - RETENTION_SECS
  }

  predicate AtLeq(a: Entry, b: Entry)
  {
    a.at <= b.at
  }

  function Find(s: seq<Entry>, jobId: int): Option<Outcome>
  {
    if s == [] then None else if s[0].jobId == jobId then Some(s[0].outcome) else Find(s[1..], jobId)
  }

  function Pruned(s: seq<Entry>, now: nat): seq<Entry>
  {
    var kept := Recent(s, Cutoff(now));
    SortPermutes(AtLeq, kept);
    if |kept| > MAX_ENTRIES then SortBy(AtLeq, kept)[|kept| - MAX_ENTRIES..] else kept
  }

  /** `at` stamps the entry, `later` is the reading the pruning makes. */
  function Recorded(s: seq<Entry>, jobId: int, outcome: Outcome, at: nat, later: nat): seq<Entry>
  {
    Pruned(Without(s, jobId) + [Entry(jobId, outcome, at)], later)
  }

  class OpDedupLog {
    /** The log file. */
    var entries: seq<Entry>

    constructor ()
      ensures entries == []
    {
      entries := [];
    }

    method Lookup(jobId: int) returns (r: Option<Outcome>)
      ensures r == Find(entries, jobId)
    {
      for i := 0 to |entries|
        invariant Find(entries, jobId) == Find(entries[i..], jobId)
      {
        if entries[i].jobId == jobId {
          return Some(entries[i].outcome);
        }
        assert entries[i..][1..] == entries[i + 1..];
      }
      r := None;
    }

    /** Replace, append, prune: the whole new log. */
    method Record(jobId: int, outcome: Outcome, at: nat, later: nat)
      modifies this
      ensures entries == Recorded(old(entries), jobId, outcome, at, later)
    {
      entries := Without(entries, jobId);
      entries := entries + [Entry(jobId, outcome, at)];
      Prune(later);
    }

    method Prune(now: nat)
      modifies this
      ensures entries == Pruned(old(entries), now)
    {
      entries := Recent(entries, Cutoff(now));
      if |entries| > MAX_ENTRIES {
        SortPermutes(AtLeq, entries);
        entries := SortBy(AtLeq, entries);
        var excess := |entries| - MAX_ENTRIES;
        entries := entries[excess..];
      }
    }
  }

  // ------------------------------------------------------------- history

  datatype Recording = Recording(jobId: int, outcome: Outcome, at: nat, later: nat)

  /** A clock that does not go back, within and between recordings. */
  ghost predicate InTime(h: seq<Recording>)
  {
    && (forall i :: 0 <= i < |h| ==> h[i].at <= h[i].later)
    && (forall i, j :: 0 <= i < j < |h| ==> h[i].later <= h[j].at)
  }

  /** The log after a history, one recording at a time. */
  function LogAfter(h: seq<Recording>): seq<Entry>
  {
    if h == [] then []
    else
      var x := h[|h| - 1];
      Recorded(LogAfter(h[..|h| - 1]), x.jobId, x.outcome, x.at, x.later)
  }

  /** The last recording of every job, in the order of those recordings. */
  function Latest(h: seq<Recording>): seq<Entry>
  {
    if h == [] then []
    else
      var x := h[|h| - 1];
      Without(Latest(h[..|h| - 1]), x.jobId) + [Entry(x.jobId, x.outcome, x.at)]
  }

  function LastN(s: seq<Entry>): seq<Entry>
  {
    if |s| > MAX_ENTRIES then s[|s| - MAX_ENTRIES..] else s
  }

  /** One cut of the whole history: recent enough, then the newest. */
  function Kept(s: seq<Entry>, cutoff: int): seq<Entry>
  {
    LastN(Recent(s, cutoff))
  }

  ghost predicate DistinctJobs(s: seq<Entry>)
  {
    forall i, j :: 0 <= i < j < |s| ==> s[i].jobId != s[j].jobId
  }

  lemma {:induction false} WithoutAppend(a: seq<Entry>, b: seq<Entry>, jobId: int)
    ensures Without(a + b, jobId) == Without(a, jobId) + Without(b, jobId)
  {
    if a == [] {
      assert a + b == b;
    } else {
      WithoutAppend(a[1..], b, jobId);
      HeadTail(a, b);
      Regroup(if a[0].jobId == jobId then [] else [a[0]], Without(a[1..], jobId), Without(b, jobId));
    }
  }

  lemma {:induction false} RecentAppend(a: seq<Entry>, b: seq<Entry>, cutoff: int)
    ensures Recent(a + b, cutoff) == Recent(a, cutoff) + Recent(b, cutoff)
  {
    if a == [] {
      assert a + b == b;
    } else {
      RecentAppend(a[1..], b, cutoff);
      HeadTail(a, b);
      Regroup(if a[0].at >= cutoff then [a[0]] else [], Recent(a[1..], cutoff), Recent(b, cutoff));
    }
  }

  lemma {:induction false} WithoutMembers(s: seq<Entry>, jobId: int)
    ensures forall e :: e in Without(s, jobId) <==> e in s && e.jobId != jobId
    ensures (forall e :: e in s ==> e.jobId != jobId) ==> Without(s, jobId) == s
  {
    if s != [] {
      WithoutMembers(s[1..], jobId);
      assert s == [s[0]] + s[1..];
    }
  }

  lemma {:induction false} WithoutSorted(s: seq<Entry>, jobId: int)
    requires Sorted(AtLeq, s)
    ensures Sorted(AtLeq, Without(s, jobId))
  {
    if s != [] {
      WithoutSorted(s[1..], jobId);
      WithoutMembers(s[1..], jobId);
      var rest := Without(s[1..], jobId);
      forall i | 0 <= i < |rest| ensures s[0].at <= rest[i].at {
        assert rest[i] in rest;
      }
    }
  }

  lemma {:induction false} WithoutDistinct(s: seq<Entry>, jobId: int)
    requires DistinctJobs(s)
    ensures DistinctJobs(Without(s, jobId)) && |Without(s, jobId)| >= |s| - 1
  {
    if s != [] {
      WithoutDistinct(s[1..], jobId);
      WithoutMembers(s[1..], jobId);
      var rest := Without(s[1..], jobId);
      forall i | 0 <= i < |rest| ensures s[0].jobId != rest[i].jobId {
        assert rest[i] in rest;
      }
    }
  }

  lemma {:induction false} RecentFacts(s: seq<Entry>, cutoff: int)
    ensures (forall e :: e in s ==> e.at >= cutoff) ==> Recent(s, cutoff) == s
    ensures (forall e :: e in s ==> e.at < cutoff) ==> Recent(s, cutoff) == []
    ensures |Recent(s, cutoff)| <= |s|
    ensures forall e :: e in Recent(s, cutoff) <==> e in s && e.at >= cutoff
  {
    if s != [] {
      RecentFacts(s[1..], cutoff);
      assert s == [s[0]] + s[1..];
    }
  }

  /** The recent part of a list in time order is its tail. */
  lemma {:induction false} RecentIsTail(s: seq<Entry>, cutoff: int) returns (old_: seq<Entry>)
    requires Sorted(AtLeq, s)
    ensures s == old_ + Recent(s, cutoff) && forall e :: e in old_ ==> e.at < cutoff
  {
    if s == [] {
      old_ := [];
    } else if s[0].at >= cutoff {
      forall e | e in s ensures e.at >= cutoff {
        var i :| 0 <= i < |s| && s[i] == e;
        assert i == 0 || AtLeq(s[0], s[i]);
      }
      RecentFacts(s, cutoff);
      old_ := [];
    } else {
      var rest := RecentIsTail(s[1..], cutoff);
      old_ := [s[0]] + rest;
      assert s == [s[0]] + s[1..];
    }
  }

  lemma RecentSorted(s: seq<Entry>, cutoff: int)
    requires Sorted(AtLeq, s)
    ensures Sorted(AtLeq, Recent(s, cutoff))
  {
    var front := RecentIsTail(s, cutoff);
    assert forall i :: 0 <= i < |Recent(s, cutoff)| ==> Recent(s, cutoff)[i] == s[|front| + i];
  }

  /** In time order the explicit sort before eviction changes nothing. */
  lemma PrunedIsKept(s: seq<Entry>, now: nat)
    requires Sorted(AtLeq, s)
    ensures Pruned(s, now) == Kept(s, Cutoff(now))
  {
    RecentSorted(s, Cutoff(now));
    SortOfSorted(AtLeq, Recent(s, Cutoff(now)));
  }

  /** Dropping a stretch at the front early does not change a later cut, if it was too old or crowded out. */
  lemma EarlyCutHarmless(p: seq<Entry>, q: seq<Entry>, cutoff: int)
    requires Sorted(AtLeq, p + q)
    requires (forall e :: e in p ==> e.at < cutoff) || |q| >= MAX_ENTRIES
    ensures Kept(p + q, cutoff) == Kept(q, cutoff)
  {
    RecentAppend(p, q, cutoff);
    if forall e :: e in p ==> e.at < cutoff {
      assert Recent(p, cutoff) == [] by { RecentFacts(p, cutoff); }
      assert [] + Recent(q, cutoff) == Recent(q, cutoff);
    } else {
      var e :| e in p && e.at >= cutoff;
      assert Recent(q, cutoff) == q by { RecentAfter(p, q, e, cutoff); }
      LastOfLong(Recent(p, cutoff), q);
    }
  }

  lemma RecentAfter(p: seq<Entry>, q: seq<Entry>, e: Entry, cutoff: int)
    requires Sorted(AtLeq, p + q) && e in p && e.at >= cutoff
    ensures Recent(q, cutoff) == q
  {
    forall x | x in q ensures x.at >= cutoff {
      var i :| 0 <= i < |p| && p[i] == e;
      var j :| 0 <= j < |q| && q[j] == x;
      assert AtLeq((p + q)[i], (p + q)[|p| + j]);
    }
    RecentFacts(q, cutoff);
  }

  lemma LastOfLong(a: seq<Entry>, b: seq<Entry>)
    requires |b| >= MAX_ENTRIES
    ensures LastN(a + b) == LastN(b)
  {}

  lemma {:induction false} LatestShape(h: seq<Recording>)
    requires InTime(h)
    ensures DistinctJobs(Latest(h)) && Sorted(AtLeq, Latest(h))
    ensures forall e :: e in Latest(h) ==> h != [] && e.at <= h[|h| - 1].at
  {
    if h != [] {
      var x, rest := h[|h| - 1], h[..|h| - 1];
      LatestShape(rest);
      WithoutMembers(Latest(rest), x.jobId);
      WithoutSorted(Latest(rest), x.jobId);
      WithoutDistinct(Latest(rest), x.jobId);
      AppendLatest(Without(Latest(rest), x.jobId), EntryOf(x));
    }
  }

  lemma AppendLatest(w: seq<Entry>, e: Entry)
    requires DistinctJobs(w) && Sorted(AtLeq, w) && forall x :: x in w ==> x.at <= e.at && x.jobId != e.jobId
    ensures DistinctJobs(w + [e]) && Sorted(AtLeq, w + [e])
  {
    forall i | 0 <= i < |w| ensures AtLeq(w[i], e) && w[i].jobId != e.jobId {
      assert w[i] in w;
    }
  }

  /** One recording on a cut list is a cut of the recording on the whole list. */
  lemma RecordOnCut(l: seq<Entry>, c: int, x: Recording)
    requires DistinctJobs(l) && Sorted(AtLeq, l) && c <= Cutoff(x.later)
    requires Sorted(AtLeq, Without(l, x.jobId) + [Entry(x.jobId, x.outcome, x.at)])
    ensures Recorded(Kept(l, c), x.jobId, x.outcome, x.at, x.later)
         == Kept(Without(l, x.jobId) + [Entry(x.jobId, x.outcome, x.at)], Cutoff(x.later))
  {
    var e := Entry(x.jobId, x.outcome, x.at);
    var front := SplitKept(l, c);
    var p, q := Without(front, x.jobId), Without(Kept(l, c), x.jobId) + [e];
    WithoutAppend(front, Kept(l, c), x.jobId);
    assert Without(l, x.jobId) + [e] == p + q;
    WithoutMembers(front, x.jobId);
    KeptDistinct(l, c, front);
    WithoutDistinct(Kept(l, c), x.jobId);
    assert Sorted(AtLeq, q) by {
      assert forall i :: 0 <= i < |q| ==> q[i] == (p + q)[|p| + i];
    }
    PrunedIsKept(q, x.later);
    EarlyCutHarmless(p, q, Cutoff(x.later));
  }

  /**
   With a clock that does not go back, the log after any history is the
   latest outcome of each job, those within a day of the last recording, and
   of these the newest 4096: pruning at every step equals one cut at the end.
   */
  lemma {:induction false} LogIsOneCut(h: seq<Recording>)
    requires InTime(h)
    ensures LogAfter(h) == if h == [] then [] else Kept(Latest(h), Cutoff(h[|h| - 1].later))
  {
    if h != [] {
      var x, rest := h[|h| - 1], h[..|h| - 1];
      LogIsOneCut(rest);
      LatestShape(rest);
      LatestShape(h);
      var c := if rest == [] then 0 else Cutoff(rest[|rest| - 1].later);
      assert LogAfter(rest) == Kept(Latest(rest), c);
      RecordOnCut(Latest(rest), c, x);
    }
  }

  /** What a cut leaves out is a front stretch: all too old, or the rest is full. */
  lemma SplitKept(s: seq<Entry>, cutoff: int) returns (front: seq<Entry>)
    requires Sorted(AtLeq, s)
    ensures s == front + Kept(s, cutoff)
    ensures (forall e :: e in front ==> e.at < cutoff) || |Kept(s, cutoff)| == MAX_ENTRIES
  {
    var old_ := RecentIsTail(s, cutoff);
    var recent := Recent(s, cutoff);
    if |recent| > MAX_ENTRIES {
      front := old_ + recent[..|recent| - MAX_ENTRIES];
    } else {
      front := old_;
    }
  }

  lemma KeptDistinct(s: seq<Entry>, cutoff: int, front: seq<Entry>)
    requires DistinctJobs(s) && s == front + Kept(s, cutoff)
    ensures DistinctJobs(Kept(s, cutoff))
  {
    var k := Kept(s, cutoff);
    assert forall i :: 0 <= i < |k| ==> k[i] == s[|front| + i];
  }

  // ----------------------------------------------------- what is found

  function EntryOf(x: Recording): Entry
  {
    Entry(x.jobId, x.outcome, x.at)
  }

  /** Recording `i` is the last of its job. */
  predicate IsLast(h: seq<Recording>, i: int)
  {
    0 <= i < |h| && forall j :: i < j < |h| ==> h[j].jobId != h[i].jobId
  }

  function JobsSince(h: seq<Recording>, i: int): set<int>
    requires 0 <= i < |h|
  {
    set j | i < j < |h| :: h[j].jobId
  }

  function JobsOf(s: seq<Entry>): set<int>
  {
    set e | e in s :: e.jobId
  }

  lemma {:induction false} JobsCount(s: seq<Entry>)
    requires DistinctJobs(s)
    ensures |JobsOf(s)| == |s|
  {
    if s != [] {
      JobsCount(s[1..]);
      assert s == [s[0]] + s[1..];
      assert JobsOf(s) == {s[0].jobId} + JobsOf(s[1..]);
    }
  }

  lemma WithoutSplit(x: seq<Entry>, e: Entry, y: seq<Entry>, job: int, z: Entry)
    requires e.jobId != job
    ensures Without(x + [e] + y, job) + [z] == Without(x, job) + [e] + (Without(y, job) + [z])
  {
    WithoutAppend(x + [e], y, job);
    WithoutAppend(x, [e], job);
    assert Without([e], job) == [e];
  }

  lemma {:induction false} LatestSplit(h: seq<Recording>, i: nat) returns (x: seq<Entry>, y: seq<Entry>)
    requires IsLast(h, i)
    ensures Latest(h) == x + [EntryOf(h[i])] + y && JobsOf(y) == JobsSince(h, i)
  {
    var n := |h| - 1;
    var rest, job := h[..n], h[n].jobId;
    if i == n {
      x, y := Without(Latest(rest), job), [];
    } else {
      var x0, y0 := LatestSplit(rest, i);
      WithoutSplit(x0, EntryOf(h[i]), y0, job, EntryOf(h[n]));
      x, y := Without(x0, job), Without(y0, job) + [EntryOf(h[n])];
      assert JobsSince(h, i) == JobsSince(rest, i) + {job} by {
        assert forall j :: i < j < n ==> rest[j].jobId == h[j].jobId;
      }
      SinceWithout(y0, job, EntryOf(h[n]));
    }
  }

  /** Where the last recording of a job stands among the latest entries. */
  lemma LatestSplits(h: seq<Recording>, i: nat) returns (x: seq<Entry>, y: seq<Entry>)
    requires InTime(h) && IsLast(h, i)
    ensures Latest(h) == x + [EntryOf(h[i])] + y && |y| == |JobsSince(h, i)|
  {
    x, y := LatestSplit(h, i);
    LatestShape(h);
    DistinctTail(x + [EntryOf(h[i])], y);
    JobsCount(y);
  }

  lemma DistinctTail(a: seq<Entry>, b: seq<Entry>)
    requires DistinctJobs(a + b)
    ensures DistinctJobs(b)
  {
    assert forall k :: 0 <= k < |b| ==> b[k] == (a + b)[|a| + k];
  }

  lemma SinceWithout(y: seq<Entry>, job: int, e: Entry)
    requires e.jobId == job
    ensures JobsOf(Without(y, job) + [e]) == JobsOf(y) + {job}
  {
    WithoutMembers(y, job);
    var z := Without(y, job) + [e];
    forall k | k in JobsOf(y) + {job} ensures k in JobsOf(z) {
      if k == job {
        assert e in z;
      } else {
        var f :| f in y && f.jobId == k;
        assert f in z;
      }
    }
  }

  lemma {:induction false} FindSkips(a: seq<Entry>, b: seq<Entry>, jobId: int)
    requires forall e :: e in a ==> e.jobId != jobId
    ensures Find(a + b, jobId) == Find(b, jobId)
  {
    if a == [] {
      assert a + b == b;
    } else {
      FindSkips(a[1..], b, jobId);
      assert (a + b)[1..] == a[1..] + b;
    }
  }

  lemma {:induction false} NotFound(s: seq<Entry>, jobId: int)
    ensures Find(s, jobId).None? <==> forall e :: e in s ==> e.jobId != jobId
  {
    if s != [] {
      NotFound(s[1..], jobId);
      assert s == [s[0]] + s[1..];
    }
  }

  lemma AroundEntry(x: seq<Entry>, e: Entry, y: seq<Entry>)
    requires Sorted(AtLeq, x + [e] + y) && DistinctJobs(x + [e] + y)
    ensures forall f :: f in x ==> f.jobId != e.jobId
    ensures forall f :: f in y ==> f.jobId != e.jobId && f.at >= e.at
  {
    var l := x + [e] + y;
    assert l[|x|] == e;
    forall f | f in x ensures f.jobId != e.jobId {
      var k :| 0 <= k < |x| && x[k] == f;
      assert l[k] == f;
    }
    forall f | f in y ensures f.jobId != e.jobId && f.at >= e.at {
      var k :| 0 <= k < |y| && y[k] == f;
      assert l[|x| + 1 + k] == f;
      assert AtLeq(l[|x|], l[|x| + 1 + k]);
    }
  }

  lemma RecentAround(x: seq<Entry>, e: Entry, y: seq<Entry>, cutoff: int)
    requires forall f :: f in y ==> f.at >= e.at
    ensures Recent(x + [e] + y, cutoff)
         == Recent(x, cutoff) + if e.at >= cutoff then [e] + y else Recent(y, cutoff)
  {
    Regroup(x, [e], y);
    RecentAppend(x, [e] + y, cutoff);
    HeadTail([e], y);
    assert [e][1..] + y == y;
    if e.at >= cutoff {
      assert Recent(y, cutoff) == y by { RecentFacts(y, cutoff); }
    }
  }

  lemma LastAround(rx: seq<Entry>, e: Entry, y: seq<Entry>)
    requires forall f :: f in rx ==> f.jobId != e.jobId
    requires forall f :: f in y ==> f.jobId != e.jobId
    ensures Find(LastN(rx + ([e] + y)), e.jobId) == if |y| < MAX_ENTRIES then Some(e.outcome) else None
  {
    if |y| < MAX_ENTRIES {
      var cut := if |rx| + 1 + |y| > MAX_ENTRIES then |rx| + 1 + |y| - MAX_ENTRIES else 0;
      assert LastN(rx + ([e] + y)) == rx[cut..] + ([e] + y);
      FindSkips(rx[cut..], [e] + y, e.jobId);
    } else {
      assert LastN(rx + ([e] + y)) == y[|y| - MAX_ENTRIES..];
      NotFound(y[|y| - MAX_ENTRIES..], e.jobId);
    }
  }

  lemma FoundInCut(x: seq<Entry>, e: Entry, y: seq<Entry>, cutoff: int)
    requires forall f :: f in x ==> f.jobId != e.jobId
    requires forall f :: f in y ==> f.jobId != e.jobId && f.at >= e.at
    ensures Find(Kept(x + [e] + y, cutoff), e.jobId)
         == if e.at >= cutoff && |y| < MAX_ENTRIES then Some(e.outcome) else None
  {
    RecentAround(x, e, y, cutoff);
    RecentFacts(x, cutoff);
    if e.at >= cutoff {
      LastAround(Recent(x, cutoff), e, y);
    } else {
      RecentFacts(y, cutoff);
      NotFound(LastN(Recent(x, cutoff) + Recent(y, cutoff)), e.jobId);
    }
  }

  /**
   A recorded outcome is found, and is the latest one, if and only if it is
   within a day of the last recording and fewer than 4096 other jobs were
   recorded since.
   */
  lemma {:induction false} FoundIff(h: seq<Recording>, i: nat)
    requires InTime(h) && IsLast(h, i)
    ensures Find(LogAfter(h), h[i].jobId)
         == if h[i].at >= Cutoff(h[|h| - 1].later) && |JobsSince(h, i)| < MAX_ENTRIES then Some(h[i].outcome) else None
  {
    LogIsOneCut(h);
    LatestShape(h);
    var x, y := LatestSplits(h, i);
    AroundEntry(x, EntryOf(h[i]), y);
    FoundInCut(x, EntryOf(h[i]), y, Cutoff(h[|h| - 1].later));
  }

  /** A job that was never recorded is never found. */
  lemma {:induction false} NeverRecorded(h: seq<Recording>, jobId: int)
    requires forall i :: 0 <= i < |h| ==> h[i].jobId != jobId
    ensures Find(LogAfter(h), jobId).None? && forall e :: e in LogAfter(h) ==> e.jobId != jobId
  {
    if h != [] {
      var x, rest := h[|h| - 1], h[..|h| - 1];
      NeverRecorded(rest, jobId);
      RecordedMembers(LogAfter(rest), x.jobId, x.outcome, x.at, x.later);
      NotFound(LogAfter(h), jobId);
    }
  }

  lemma RecordedMembers(s: seq<Entry>, jobId: int, outcome: Outcome, at: nat, later: nat)
    ensures forall e :: e in Recorded(s, jobId, outcome, at, later) ==>
              (e in s && e.jobId != jobId) || e == Entry(jobId, outcome, at)
  {
    var t := Without(s, jobId) + [Entry(jobId, outcome, at)];
    WithoutMembers(s, jobId);
    RecentFacts(t, Cutoff(later));
    SortKeepsMembers(AtLeq, Recent(t, Cutoff(later)));
  }
}
