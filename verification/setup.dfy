/**
 Run setup in GoogleTask: the proxy pool and worker count of doRun, and the
 target lookup tables built by initializeTargets and setCustomTargets.
 */
module Setup {
  import opened Wrappers
  import opened Model

  /** The proxies the rotator starts with: the configured ones, or a single
      direct connection when none is configured. */
  function ProxyPool(configured: seq<Proxy>): (ps: seq<Proxy>)
    ensures |ps| >= 1
    ensures |configured| == 0 ==> ps == [DirectNoProxy]
    ensures |configured| > 0 ==> ps == configured
  {
    if |configured| == 0 then [DirectNoProxy] else configured
  }

  /** The worker count: the configured maximum, lowered to the proxy count when there are fewer proxies. */
  function ThreadCount(maxThreads: int, proxyCount: nat): (n: int)
    ensures n <= maxThreads && n <= proxyCount
    ensures n == maxThreads || n == proxyCount
  {
    if proxyCount < maxThreads then proxyCount else maxThreads
  }

  datatype Workers = Workers(proxies: seq<Proxy>, threads: int)

  /** The proxy pool and worker count doRun starts the workers with. */
  function WorkerSetup(maxThreads: int, configured: seq<Proxy>): (w: Workers)
    ensures |w.proxies| >= 1
    ensures |configured| == 0 ==> w.proxies == [DirectNoProxy]
    ensures w.threads <= |w.proxies|
    ensures maxThreads >= 1 ==> 1 <= w.threads
    ensures w.threads == (if maxThreads <= |w.proxies| then maxThreads else |w.proxies|)
  {
    var ps := ProxyPool(configured);
    Workers(ps, ThreadCount(maxThreads, |ps|))
  }

  /** The targets of `ts` whose group is `group`, in input order. */
  function InGroup(ts: seq<Target>, group: int): seq<Target> {
    if |ts| == 0 then []
    else (if ts[0].groupId == group then [ts[0]] else []) + InGroup(ts[1..], group)
  }

  lemma {:induction false} InGroupMembers(ts: seq<Target>, group: int)
    ensures forall t :: t in InGroup(ts, group) <==> t in ts && t.groupId == group
    decreases |ts|
  {
    if |ts| > 0 {
      InGroupMembers(ts[1..], group);
      assert ts == [ts[0]] + ts[1..];
    }
  }

  /** Appending each target, in order, to the list of its group. */
  function GroupTargets(byGroup: map<int, seq<Target>>, ts: seq<Target>): (m: map<int, seq<Target>>)
    ensures byGroup.Keys <= m.Keys
    decreases |ts|
  {
    if |ts| == 0 then byGroup
    else
      var t := ts[0];
      GroupTargets(byGroup[t.groupId := TargetsOf(byGroup, t.groupId) + [t]], ts[1..])
  }

  /** Group `g` ends up holding what it held before followed by the targets of
      `g`, in input order; it has a list iff it had one or some target is in it. */
  lemma {:induction false} GroupTargetsAppendsInOrder(byGroup: map<int, seq<Target>>, ts: seq<Target>, g: int)
    ensures var m := GroupTargets(byGroup, ts);
      && (g in m <==> g in byGroup || |InGroup(ts, g)| > 0)
      && (g in m ==> m[g] == TargetsOf(byGroup, g) + InGroup(ts, g))
    decreases |ts|
  {
    if |ts| > 0 {
      var t := ts[0];
      var next := byGroup[t.groupId := TargetsOf(byGroup, t.groupId) + [t]];
      GroupTargetsAppendsInOrder(next, ts[1..], g);
      var own := if t.groupId == g then [t] else [];
      assert InGroup(ts, g) == own + InGroup(ts[1..], g);
      assert TargetsOf(next, g) == TargetsOf(byGroup, g) + own;
      assert TargetsOf(byGroup, g) + own + InGroup(ts[1..], g)
          == TargetsOf(byGroup, g) + InGroup(ts, g);
    }
  }

  /** The summary a target starts the run with. */
  function FreshSummary(t: Target, runId: int, previousScores: map<int, int>): Summary {
    Summary(t.groupId, t.id, runId, GetOrDefault(previousScores, t.id, 0), [])
  }

  /** The ids of the targets of `ts`. */
  function Ids(ts: seq<Target>): set<int> {
    if |ts| == 0 then {} else {ts[0].id} + Ids(ts[1..])
  }

  /** Putting, for each target in order, a fresh summary under its id. */
  function SeedSummaries(summaries: map<int, Summary>, ts: seq<Target>, runId: int,
                         previousScores: map<int, int>): (m: map<int, Summary>)
    ensures m.Keys == summaries.Keys + Ids(ts)
    decreases |ts|
  {
    if |ts| == 0 then summaries
    else
      var t := ts[0];
      SeedSummaries(summaries[t.id := FreshSummary(t, runId, previousScores)], ts[1..], runId, previousScores)
  }

  /** A target id ends up with the fresh summary of the last target with
      that id; an id no target has keeps what it held. */
  lemma {:induction false} SeedSummariesFresh(summaries: map<int, Summary>, ts: seq<Target>, runId: int,
                                              previousScores: map<int, int>, k: int)
    ensures var m := SeedSummaries(summaries, ts, runId, previousScores);
      && (k in summaries && k !in Ids(ts) ==> m[k] == summaries[k])
      && (k in Ids(ts) ==> exists t :: t in ts && t.id == k && m[k] == FreshSummary(t, runId, previousScores))
      && (k in Ids(ts) ==>
            exists i :: 0 <= i < |ts| && ts[i].id == k && m[k] == FreshSummary(ts[i], runId, previousScores)
              && forall j :: i < j < |ts| ==> ts[j].id != k)
    decreases |ts|
  {
    if |ts| > 0 {
      var t := ts[0];
      var rest := ts[1..];
      var next := summaries[t.id := FreshSummary(t, runId, previousScores)];
      var m := SeedSummaries(next, rest, runId, previousScores);
      SeedSummariesFresh(next, rest, runId, previousScores, k);
      assert forall x :: x in rest ==> x in ts;
      if k in Ids(rest) {
        var i :| 0 <= i < |rest| && rest[i].id == k && m[k] == FreshSummary(rest[i], runId, previousScores)
          && forall j :: i < j < |rest| ==> rest[j].id != k;
        assert ts[i + 1] == rest[i];
        forall j | i + 1 < j < |ts| ensures ts[j].id != k {
          assert ts[j] == rest[j - 1];
        }
      } else if k == t.id {
        forall j | 0 < j < |ts| ensures ts[j].id != k {
          assert ts[j] == rest[j - 1];
          IdsMember(rest, rest[j - 1]);
        }
      }
    }
  }

  /** The target ids the summaries of `ss` belong to. */
  function SummaryIds(ss: seq<Summary>): set<int> {
    if |ss| == 0 then {} else {ss[0].targetId} + SummaryIds(ss[1..])
  }

  /** Putting each stored summary, in order, under its target id. */
  function ApplyStored(summaries: map<int, Summary>, stored: seq<Summary>): (m: map<int, Summary>)
    ensures m.Keys == summaries.Keys + SummaryIds(stored)
    decreases |stored|
  {
    if |stored| == 0 then summaries
    else ApplyStored(summaries[stored[0].targetId := stored[0]], stored[1..])
  }

  lemma {:induction false} SummaryIdsMember(ss: seq<Summary>, i: nat)
    requires i < |ss|
    ensures ss[i].targetId in SummaryIds(ss)
    decreases i
  {
    if i > 0 {
      SummaryIdsMember(ss[1..], i - 1);
    }
  }

  /** For a stored id, the last stored summary with that id wins; an id with
      no stored summary keeps what it held. */
  lemma {:induction false} ApplyStoredLastWins(summaries: map<int, Summary>, stored: seq<Summary>, k: int)
    ensures var m := ApplyStored(summaries, stored);
      && (k in summaries && k !in SummaryIds(stored) ==> m[k] == summaries[k])
      && (k in SummaryIds(stored) ==>
            exists i :: 0 <= i < |stored| && stored[i] == m[k] && m[k].targetId == k
              && forall j :: i < j < |stored| ==> stored[j].targetId != k)
    decreases |stored|
  {
    if |stored| > 0 {
      var s := stored[0];
      var rest := stored[1..];
      var next := summaries[s.targetId := s];
      var m := ApplyStored(next, rest);
      assert m == ApplyStored(summaries, stored);
      ApplyStoredLastWins(next, rest, k);
      if k in SummaryIds(rest) {
        var i :| 0 <= i < |rest| && rest[i] == m[k] && m[k].targetId == k
          && forall j :: i < j < |rest| ==> rest[j].targetId != k;
        assert stored[i + 1] == m[k];
        forall j | i + 1 < j < |stored| ensures stored[j].targetId != k {
          assert stored[j] == rest[j - 1];
        }
      } else if k == s.targetId {
        assert m[k] == s;
        forall j | 0 < j < |stored| ensures stored[j].targetId != k {
          assert stored[j] == rest[j - 1];
          SummaryIdsMember(rest, j - 1);
        }
      }
    }
  }

  /** The two lookup tables every worker reads: targets by group id and summaries by target id. */
  datatype TargetTables = TargetTables(byGroup: map<int, seq<Target>>, summaries: map<int, Summary>)

  /** The previous run's scores by target id; empty when there is no previous run.
      `scoresOf` is the store's score lookup for a run id. */
  function PreviousScores(previousRunId: Option<int>, scoresOf: int -> map<int, int>): (m: map<int, int>)
    ensures previousRunId.None? ==> m == map[]
    ensures previousRunId.Some? ==> m == scoresOf(previousRunId.value)
  {
    match previousRunId
    case None => map[]
    case Some(prev) => scoresOf(prev)
  }

  /** A group has a list iff some target belongs to it, and the list holds
      exactly the targets of that group, in input order. */
  ghost predicate GroupedInOrder(byGroup: map<int, seq<Target>>, targets: seq<Target>) {
    && (forall g :: g in byGroup <==> exists t :: t in targets && t.groupId == g)
    && (forall g :: g in byGroup ==> byGroup[g] == InGroup(targets, g))
  }

  /** `s` is the summary target `k` starts the run with: the group of a
      target with id `k`, this run, no candidates, and the previous run's
      score for `k`, or 0 when there is no previous run or it stored no score
      for `k`. */
  ghost predicate SeededFor(s: Summary, k: int, targets: seq<Target>, ctx: RunContext,
                            scoresOf: int -> map<int, int>) {
    && s.targetId == k
    && (exists t :: t in targets && t.id == k && s.groupId == t.groupId)
    && s.runId == ctx.runId
    && s.candidates == []
    && s.previousScore ==
         (if ctx.previousRunId.Some? && k in scoresOf(ctx.previousRunId.value)
          then scoresOf(ctx.previousRunId.value)[k] else 0)
  }

  /** initializeTargets: group the stored targets, seed their summaries and,
      on an update run, put back the summaries stored for this run. */
  function InitializeTargets(ctx: RunContext, targets: seq<Target>, scoresOf: int -> map<int, int>,
                             updateRun: bool, stored: seq<Summary>): (tt: TargetTables)
    ensures GroupedInOrder(tt.byGroup, targets)
    ensures SummariesCover(tt.byGroup, tt.summaries)
    ensures tt.summaries.Keys == Ids(targets) + (if updateRun then SummaryIds(stored) else {})
    ensures forall k :: k in Ids(targets) && (!updateRun || k !in SummaryIds(stored)) ==>
      SeededFor(tt.summaries[k], k, targets, ctx, scoresOf)
    ensures updateRun ==> forall k :: k in SummaryIds(stored) ==>
      tt.summaries[k] in stored && tt.summaries[k].targetId == k
  {
    var prev := PreviousScores(ctx.previousRunId, scoresOf);
    var seeded := SeedSummaries(map[], targets, ctx.runId, prev);
    var summaries := if updateRun then ApplyStored(seeded, stored) else seeded;
    GroupTargetsFromEmpty(targets);
    SeedSummariesFromEmpty(targets, ctx.runId, prev);
    ApplyStoredReplaces(seeded, stored);
    SeededTablesCover(targets, summaries);
    TargetTables(GroupTargets(map[], targets), summaries)
  }

  /** setCustomTargets, given the run's previous run: the same tables for an
      externally supplied target list, without the stored summaries of an
      update run. */
  function CustomTargets(ctx: RunContext, targets: seq<Target>, scoresOf: int -> map<int, int>): (tt: TargetTables)
    ensures GroupedInOrder(tt.byGroup, targets)
    ensures SummariesCover(tt.byGroup, tt.summaries)
    ensures tt.summaries.Keys == Ids(targets)
    ensures forall k :: k in tt.summaries ==> SeededFor(tt.summaries[k], k, targets, ctx, scoresOf)
  {
    var prev := PreviousScores(ctx.previousRunId, scoresOf);
    var summaries := SeedSummaries(map[], targets, ctx.runId, prev);
    GroupTargetsFromEmpty(targets);
    SeedSummariesFromEmpty(targets, ctx.runId, prev);
    SeededTablesCover(targets, summaries);
    TargetTables(GroupTargets(map[], targets), summaries)
  }

  /** setCustomTargets as written. A custom run skips initializeTargets, so
      its targets are set before doRun; the previous run is only set by
      initializePreviousRuns inside doRun. At setup time there is therefore no
      previous run, and every previous score is seeded with 0. */
  function CustomTargetsAsWritten(ctx: RunContext, targets: seq<Target>, scoresOf: int -> map<int, int>): (tt: TargetTables)
    ensures tt.summaries.Keys == Ids(targets)
    ensures forall k :: k in tt.summaries ==> tt.summaries[k].previousScore == 0
  {
    CustomTargets(ctx.(previousRunId := None), targets, scoresOf)
  }

  /** A run whose previous run 7 stored a score of 55 for target 1: the
      custom target set as written seeds 0, although the same run's ranks
      read their previous rank from run 7; the corrected tables seed 55. */
  lemma CustomTargetsIgnorePreviousScore()
    ensures var t := Target(1, 1, "t", "p");
      var ctx := RunContext(2, 0, Some(7));
      var scoresOf := (r: int) => map[1 := 55];
      && CustomTargetsAsWritten(ctx, [t], scoresOf).summaries[1].previousScore == 0
      && CustomTargets(ctx, [t], scoresOf).summaries[1].previousScore == 55
  {
    var t := Target(1, 1, "t", "p");
    assert Ids([t]) == {1};
  }

  lemma {:induction false} IdsMember(ts: seq<Target>, t: Target)
    requires t in ts
    ensures t.id in Ids(ts)
    decreases |ts|
  {
    if ts[0] != t {
      IdsMember(ts[1..], t);
    }
  }

  /** Grouping a target list into empty tables lists each group's targets in input order. */
  lemma GroupTargetsFromEmpty(targets: seq<Target>)
    ensures GroupedInOrder(GroupTargets(map[], targets), targets)
  {
    var m := GroupTargets(map[], targets);
    forall g
      ensures g in m <==> exists t :: t in targets && t.groupId == g
      ensures g in m ==> m[g] == InGroup(targets, g)
    {
      GroupTargetsAppendsInOrder(map[], targets, g);
      InGroupMembers(targets, g);
      if g in m {
        assert InGroup(targets, g)[0] in InGroup(targets, g);
      }
    }
  }

  /** Seeding empty tables gives every target id its fresh summary. */
  lemma SeedSummariesFromEmpty(targets: seq<Target>, runId: int, prev: map<int, int>)
    ensures var m := SeedSummaries(map[], targets, runId, prev);
      forall k :: k in m ==>
        && m[k].targetId == k && m[k].runId == runId && m[k].candidates == []
        && m[k].previousScore == GetOrDefault(prev, k, 0)
        && (exists t :: t in targets && t.id == k && m[k].groupId == t.groupId)
  {
    var m := SeedSummaries(map[], targets, runId, prev);
    forall k | k in m
      ensures m[k].targetId == k && m[k].runId == runId && m[k].candidates == []
      ensures m[k].previousScore == GetOrDefault(prev, k, 0)
      ensures exists t :: t in targets && t.id == k && m[k].groupId == t.groupId
    {
      SeedSummariesFresh(map[], targets, runId, prev, k);
    }
  }

  /** Stored summaries take over their ids; every other id keeps its summary. */
  lemma ApplyStoredReplaces(summaries: map<int, Summary>, stored: seq<Summary>)
    ensures var m := ApplyStored(summaries, stored);
      && (forall k :: k in SummaryIds(stored) ==> m[k] in stored && m[k].targetId == k)
      && (forall k :: k in summaries && k !in SummaryIds(stored) ==> m[k] == summaries[k])
  {
    var m := ApplyStored(summaries, stored);
    forall k
      ensures k in SummaryIds(stored) ==> m[k] in stored && m[k].targetId == k
      ensures k in summaries && k !in SummaryIds(stored) ==> m[k] == summaries[k]
    {
      ApplyStoredLastWins(summaries, stored, k);
    }
  }

  /** Every target listed under group `g` of tables built from `targets` has
      group `g` and a summary, whatever stored summaries were put back. */
  lemma GroupedTargetHasSummary(targets: seq<Target>, summaries: map<int, Summary>, g: int, t: Target)
    requires Ids(targets) <= summaries.Keys
    requires g in GroupTargets(map[], targets) && t in GroupTargets(map[], targets)[g]
    ensures t.groupId == g && t.id in summaries
  {
    GroupTargetsAppendsInOrder(map[], targets, g);
    InGroupMembers(targets, g);
    IdsMember(targets, t);
  }

  /** Tables whose summaries cover every target id cover every grouped target. */
  lemma SeededTablesCover(targets: seq<Target>, summaries: map<int, Summary>)
    requires Ids(targets) <= summaries.Keys
    ensures SummariesCover(GroupTargets(map[], targets), summaries)
  {
    forall g, t | g in GroupTargets(map[], targets) && t in GroupTargets(map[], targets)[g]
      ensures t.groupId == g && t.id in summaries
    {
      GroupedTargetHasSummary(targets, summaries, g, t);
    }
  }

  /** On an update run, the last stored summary for a target id replaces the fresh one. */
  lemma StoredSummariesOverride(ctx: RunContext, targets: seq<Target>, scoresOf: int -> map<int, int>,
                                stored: seq<Summary>, k: int)
    requires k in SummaryIds(stored)
    ensures var tt := InitializeTargets(ctx, targets, scoresOf, true, stored);
      && k in tt.summaries && tt.summaries[k] in stored && tt.summaries[k].targetId == k
      && exists i :: 0 <= i < |stored| && stored[i] == tt.summaries[k]
           && forall j :: i < j < |stored| ==> stored[j].targetId != k
  {
    var prev := PreviousScores(ctx.previousRunId, scoresOf);
    var seeded := SeedSummaries(map[], targets, ctx.runId, prev);
    ApplyStoredLastWins(seeded, stored, k);
  }
}
