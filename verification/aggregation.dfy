/**
 What one completed search turns into (GoogleTask.insertSearchResult): the
 stored result page, one rank record per (group, target) of the search, the
 best-rank snapshots, and the records fed to the target summaries. Store
 writes are returned values.
 */
module Aggregation {
  import opened Wrappers
  import opened Model
  import opened Ranking
  import History

  /** The entries of a result page, one per URL, in the order of the URLs.
      `fill` stands for the entry's own lookup of its historical positions. */
  function Entries(urls: seq<string>, history: map<int, Serp>,
                   fill: (string, map<int, Serp>) -> map<int, int>): (es: seq<SerpEntry>)
    ensures |es| == |urls|
    ensures forall i :: 0 <= i < |urls| ==> es[i].url == urls[i] && es[i].previous == fill(urls[i], history)
  {
    if |urls| == 0 then []
    else [SerpEntry(urls[0], fill(urls[0], history))] + Entries(urls[1..], history, fill)
  }

  /** The URLs of a page's entries, in order. */
  function UrlsOf(es: seq<SerpEntry>): (urls: seq<string>)
    ensures |urls| == |es|
  {
    if |es| == 0 then [] else [es[0].url] + UrlsOf(es[1..])
  }

  /** The result page stored for one search of this run. */
  function BuildSerp(ctx: RunContext, searchId: int, urls: seq<string>, history: map<int, Serp>,
                     fill: (string, map<int, Serp>) -> map<int, int>): (s: Serp)
    ensures s.runId == ctx.runId && s.searchId == searchId && s.when == ctx.started
    ensures |s.entries| == |urls|
    ensures forall i :: 0 <= i < |urls| ==>
      s.entries[i].url == urls[i] && s.entries[i].previous == fill(urls[i], history)
  {
    Serp(ctx.runId, searchId, ctx.started, Entries(urls, history, fill))
  }

  /** The stored page gives back exactly the scraped URL list, in order. */
  lemma {:induction false} SerpKeepsUrls(ctx: RunContext, searchId: int, urls: seq<string>, history: map<int, Serp>,
                                         fill: (string, map<int, Serp>) -> map<int, int>)
    ensures UrlsOf(BuildSerp(ctx, searchId, urls, history, fill).entries) == urls
  {
    EntriesUrls(urls, history, fill);
  }

  lemma {:induction false} EntriesUrls(urls: seq<string>, history: map<int, Serp>,
                                       fill: (string, map<int, Serp>) -> map<int, int>)
    ensures UrlsOf(Entries(urls, history, fill)) == urls
    decreases |urls|
  {
    if |urls| > 0 {
      var es := Entries(urls, history, fill);
      EntriesUrls(urls[1..], history, fill);
      assert es[1..] == Entries(urls[1..], history, fill);
      assert UrlsOf(es) == [urls[0]] + urls[1..];
    }
  }

  /** What processing one target of one group yields: its rank record and,
      when the best rule fires, a new best snapshot. */
  datatype TargetOutcome = TargetOutcome(record: RankRecord, best: Option<BestRecord>)

  /** Processing one target of group `group` for a search of this run. */
  function RankTarget(env: Env, ctx: RunContext, group: int, t: Target, searchId: int,
                      urls: seq<string>): (o: TargetOutcome)
    ensures o.record.runId == ctx.runId && o.record.groupId == group
    ensures o.record.targetId == t.id && o.record.searchId == searchId
    ensures o.record.url.Some? <==> AnyMatch(env.matches, t, urls)
    ensures o.record.url.None? ==> o.record.rank == UNRANKED
    ensures o.record.url.Some? ==>
      && 1 <= o.record.rank <= |urls|
      && o.record.url.value == urls[o.record.rank - 1]
      && env.matches(t, urls[o.record.rank - 1])
      && forall j :: 0 <= j < o.record.rank - 1 ==> !env.matches(t, urls[j])
    ensures ctx.previousRunId.None? ==> o.record.previousRank == UNRANKED
    ensures ctx.previousRunId.Some? ==>
      o.record.previousRank == env.storedRank(ctx.previousRunId.value, group, t.id, searchId)
    ensures o.best.Some? <==>
      o.record.rank != UNRANKED && o.record.rank <= env.bestRank(group, t.id, searchId)
    ensures o.best.Some? ==>
      o.best.value == BestRecord(group, t.id, searchId, o.record.rank, ctx.started, o.record.url)
  {
    var best := env.bestRank(group, t.id, searchId);
    var r := ComputeRank(env.matches, t, urls);
    var prev := PreviousRank(env, ctx.previousRunId, group, t.id, searchId);
    TargetOutcome(
      RankRecord(ctx.runId, group, t.id, searchId, r.rank, prev, r.url),
      BestUpdate(group, t.id, searchId, r.rank, r.url, best, ctx.started))
  }

  /** A target matching only "example.com/page", on the list [a.com,
      example.com/page, b.com], with a previous rank of 5 and a stored best
      of 4: rank 2 with that URL, previous rank 5, and a new best of 2. */
  lemma SecondUrlScenario(env: Env, ctx: RunContext, group: int, t: Target, searchId: int, prev: int)
    requires forall u :: env.matches(t, u) <==> u == "example.com/page"
    requires ctx.previousRunId == Some(prev)
    requires env.storedRank(prev, group, t.id, searchId) == 5
    requires env.bestRank(group, t.id, searchId) == 4
    ensures RankTarget(env, ctx, group, t, searchId, ["a.com", "example.com/page", "b.com"])
         == TargetOutcome(
              RankRecord(ctx.runId, group, t.id, searchId, 2, 5, Some("example.com/page")),
              Some(BestRecord(group, t.id, searchId, 2, ctx.started, Some("example.com/page"))))
  {
  }

  /** How many targets the listed groups register, counting a group once per listing. */
  function TargetCount(groups: seq<int>, byGroup: map<int, seq<Target>>): nat {
    if |groups| == 0 then 0 else |TargetsOf(byGroup, groups[0])| + TargetCount(groups[1..], byGroup)
  }

  /** The outcomes of every target of one group, in the group's target order. */
  function RankTargets(env: Env, ctx: RunContext, group: int, ts: seq<Target>, searchId: int,
                       urls: seq<string>): (os: seq<TargetOutcome>)
    ensures |os| == |ts|
    ensures forall i :: 0 <= i < |ts| ==> os[i] == RankTarget(env, ctx, group, ts[i], searchId, urls)
  {
    if |ts| == 0 then []
    else [RankTarget(env, ctx, group, ts[0], searchId, urls)] + RankTargets(env, ctx, group, ts[1..], searchId, urls)
  }

  /** The outcomes of every (group, target) pair of a search: groups in the
      order the store lists them, a group without registered targets skipped. */
  function RankGroups(env: Env, ctx: RunContext, groups: seq<int>, byGroup: map<int, seq<Target>>,
                      searchId: int, urls: seq<string>): (os: seq<TargetOutcome>)
    ensures |os| == TargetCount(groups, byGroup)
    ensures forall o :: o in os ==>
      && o.record.groupId in groups
      && o.record.groupId in byGroup
      && exists t :: t in byGroup[o.record.groupId]
           && o == RankTarget(env, ctx, o.record.groupId, t, searchId, urls)
    ensures forall g, t :: g in groups && g in byGroup && t in byGroup[g] ==>
      RankTarget(env, ctx, g, t, searchId, urls) in os
  {
    if |groups| == 0 then []
    else
      var g := groups[0];
      var here := if g in byGroup then RankTargets(env, ctx, g, byGroup[g], searchId, urls) else [];
      here + RankGroups(env, ctx, groups[1..], byGroup, searchId, urls)
  }

  /** The rank records of a list of outcomes, in order. */
  function Records(os: seq<TargetOutcome>): (rs: seq<RankRecord>)
    ensures |rs| == |os|
    ensures forall i :: 0 <= i < |os| ==> rs[i] == os[i].record
  {
    if |os| == 0 then [] else [os[0].record] + Records(os[1..])
  }

  /** The best snapshots of a list of outcomes, in order. */
  function Bests(os: seq<TargetOutcome>): (bs: seq<BestRecord>)
    ensures forall b :: b in bs ==> exists o :: o in os && o.best == Some(b)
    ensures forall o :: o in os && o.best.Some? ==> o.best.value in bs
  {
    if |os| == 0 then []
    else (if os[0].best.Some? then [os[0].best.value] else []) + Bests(os[1..])
  }

  /** The records of a list that belong to target `targetId`, in order. */
  function RecordsFor(rs: seq<RankRecord>, targetId: int): seq<RankRecord> {
    if |rs| == 0 then []
    else (if rs[0].targetId == targetId then [rs[0]] else []) + RecordsFor(rs[1..], targetId)
  }

  /** Appends one record to the candidates of a summary. */
  function AddCandidate(s: Summary, r: RankRecord): Summary {
    s.(candidates := s.candidates + [r])
  }

  /** Feeding rank records, in order, to the summaries of their targets. */
  function Feed(summaries: map<int, Summary>, rs: seq<RankRecord>): (m: map<int, Summary>)
    requires forall r :: r in rs ==> r.targetId in summaries
    ensures m.Keys == summaries.Keys
    decreases |rs|
  {
    if |rs| == 0 then summaries
    else
      var r := rs[0];
      assert forall x :: x in rs[1..] ==> x in rs;
      Feed(summaries[r.targetId := AddCandidate(summaries[r.targetId], r)], rs[1..])
  }

  /** Each summary receives exactly the records of its own target, in order,
      and keeps everything else it held. */
  lemma {:induction false} FeedAppendsOwnRecords(summaries: map<int, Summary>, rs: seq<RankRecord>, k: int)
    requires forall r :: r in rs ==> r.targetId in summaries
    requires k in summaries
    ensures Feed(summaries, rs)[k]
         == summaries[k].(candidates := summaries[k].candidates + RecordsFor(rs, k))
    decreases |rs|
  {
    if |rs| > 0 {
      var r := rs[0];
      var next := summaries[r.targetId := AddCandidate(summaries[r.targetId], r)];
      assert forall x :: x in rs[1..] ==> x in rs;
      FeedAppendsOwnRecords(next, rs[1..], k);
      var own := if r.targetId == k then [r] else [];
      assert RecordsFor(rs, k) == own + RecordsFor(rs[1..], k);
      assert next[k] == summaries[k].(candidates := summaries[k].candidates + own);
      assert summaries[k].candidates + own + RecordsFor(rs[1..], k)
          == summaries[k].candidates + RecordsFor(rs, k);
    }
  }

  /** Everything one completed search yields. */
  datatype Inserted = Inserted(serp: Serp, ranks: seq<RankRecord>, bests: seq<BestRecord>,
                               summaries: map<int, Summary>)

  /** The record of every outcome of a search belongs to a registered target
      of one of the search's groups, and so has a summary to feed. */
  lemma RecordsOfRegisteredTargets(env: Env, ctx: RunContext, groups: seq<int>, byGroup: map<int, seq<Target>>,
                                   summaries: map<int, Summary>, searchId: int, urls: seq<string>)
    requires SummariesCover(byGroup, summaries)
    ensures forall r :: r in Records(RankGroups(env, ctx, groups, byGroup, searchId, urls)) ==>
      && r.runId == ctx.runId && r.searchId == searchId
      && r.groupId in groups && r.groupId in byGroup
      && r.targetId in summaries
  {
  }

  /** Every best snapshot comes with a rank record of the same triple, rank
      and URL, is stamped with this run's start time, and its rank passed the
      best rule. */
  lemma BestsComeFromRecords(env: Env, ctx: RunContext, groups: seq<int>, byGroup: map<int, seq<Target>>,
                             searchId: int, urls: seq<string>)
    ensures var os := RankGroups(env, ctx, groups, byGroup, searchId, urls);
      forall b :: b in Bests(os) ==>
        exists r :: (r in Records(os) && r.groupId == b.groupId && r.targetId == b.targetId
          && r.searchId == b.searchId && r.rank == b.rank && r.url == b.url && b.when == ctx.started
          && b.rank != UNRANKED && b.rank <= env.bestRank(b.groupId, b.targetId, searchId))
  {
  }

  /** Every (listed group, registered target) pair of a search gets its
      first-match record among the records of the search. */
  lemma RecordsCoverRegisteredTargets(env: Env, ctx: RunContext, groups: seq<int>, byGroup: map<int, seq<Target>>,
                                      searchId: int, urls: seq<string>)
    ensures forall g, t :: g in groups && g in byGroup && t in byGroup[g] ==>
      RankTarget(env, ctx, g, t, searchId, urls).record in Records(RankGroups(env, ctx, groups, byGroup, searchId, urls))
  {
  }

  /** Every record of a search whose rank passes the best rule comes with the
      best snapshot for its triple, carrying this run's start time and its URL. */
  lemma PassingRecordsHaveBests(env: Env, ctx: RunContext, groups: seq<int>, byGroup: map<int, seq<Target>>,
                                searchId: int, urls: seq<string>)
    ensures var os := RankGroups(env, ctx, groups, byGroup, searchId, urls);
      forall r :: r in Records(os) && r.rank != UNRANKED && r.rank <= env.bestRank(r.groupId, r.targetId, searchId) ==>
        BestRecord(r.groupId, r.targetId, searchId, r.rank, ctx.started, r.url) in Bests(os)
  {
  }

  /** The whole processing of one completed search with result list `urls`. */
  function InsertSearchResult(env: Env, ctx: RunContext, search: Search, urls: seq<string>,
                              groups: seq<int>, byGroup: map<int, seq<Target>>,
                              summaries: map<int, Summary>, history: map<int, Serp>,
                              fill: (string, map<int, Serp>) -> map<int, int>): (ins: Inserted)
    requires SummariesCover(byGroup, summaries)
    ensures ins.serp.runId == ctx.runId && ins.serp.searchId == search.id && ins.serp.when == ctx.started
    ensures |ins.serp.entries| == |urls|
    ensures forall i :: 0 <= i < |urls| ==>
      ins.serp.entries[i].url == urls[i] && ins.serp.entries[i].previous == fill(urls[i], history)
    ensures |ins.ranks| == TargetCount(groups, byGroup)
    ensures forall r :: r in ins.ranks ==>
      r.runId == ctx.runId && r.searchId == search.id && r.groupId in groups && r.groupId in byGroup
    ensures forall g, t :: g in groups && g in byGroup && t in byGroup[g] ==>
      RankTarget(env, ctx, g, t, search.id, urls).record in ins.ranks
    ensures forall b :: b in ins.bests ==>
      exists r :: (r in ins.ranks && r.groupId == b.groupId && r.targetId == b.targetId
        && r.searchId == b.searchId && r.rank == b.rank && r.url == b.url && b.when == ctx.started
        && b.rank != UNRANKED && b.rank <= env.bestRank(b.groupId, b.targetId, search.id))
    ensures forall r :: r in ins.ranks && r.rank != UNRANKED && r.rank <= env.bestRank(r.groupId, r.targetId, search.id) ==>
      BestRecord(r.groupId, r.targetId, search.id, r.rank, ctx.started, r.url) in ins.bests
    ensures ins.summaries.Keys == summaries.Keys
    ensures forall r :: r in ins.ranks ==>
      && r.groupId in byGroup
      && (exists t :: t in byGroup[r.groupId] && r == RankTarget(env, ctx, r.groupId, t, search.id, urls).record)
    ensures forall k :: k in ins.summaries ==>
      ins.summaries[k] == summaries[k].(candidates := summaries[k].candidates + RecordsFor(ins.ranks, k))
  {
    var os := RankGroups(env, ctx, groups, byGroup, search.id, urls);
    var rs := Records(os);
    RecordsOfRegisteredTargets(env, ctx, groups, byGroup, summaries, search.id, urls);
    BestsComeFromRecords(env, ctx, groups, byGroup, search.id, urls);
    RecordsCoverRegisteredTargets(env, ctx, groups, byGroup, search.id, urls);
    PassingRecordsHaveBests(env, ctx, groups, byGroup, search.id, urls);
    var fed := Feed(summaries, rs);
    forall r | r in rs
      ensures r.groupId in byGroup
      ensures exists t :: t in byGroup[r.groupId] && r == RankTarget(env, ctx, r.groupId, t, search.id, urls).record
    {
      var i :| 0 <= i < |rs| && rs[i] == r;
      assert os[i] in os;
    }
    forall k | k in fed
      ensures fed[k] == summaries[k].(candidates := summaries[k].candidates + RecordsFor(rs, k))
    {
      FeedAppendsOwnRecords(summaries, rs, k);
    }
    Inserted(BuildSerp(ctx, search.id, urls, history, fill), rs, Bests(os), fed)
  }

  /** insertSearchResult with its own history lookup: the historical pages of
      the search are looked up through the run's day-offset table, then the
      result is processed against them. */
  method ProcessCompletedSearch(env: Env, ctx: RunContext, search: Search, urls: seq<string>,
                                groups: seq<int>, byGroup: map<int, seq<Target>>,
                                summaries: map<int, Summary>, runsDaysBack: int -> seq<int>,
                                pageOf: (int, int) -> Option<Serp>,
                                fill: (string, map<int, Serp>) -> map<int, int>)
    returns (history: map<int, Serp>, ins: Inserted)
    requires SummariesCover(byGroup, summaries)
    ensures history.Keys <= {1, 7, 30, 90}
    ensures ctx.previousRunId.None? ==> history == map[]
    ensures forall d :: d in history <==>
      ctx.previousRunId.Some? && d in History.DayOffsets && |runsDaysBack(d)| > 0
      && pageOf(runsDaysBack(d)[0], search.id).Some?
    ensures forall d :: d in history ==> pageOf(runsDaysBack(d)[0], search.id) == Some(history[d])
    ensures |ins.serp.entries| == |urls|
    ensures forall i :: 0 <= i < |urls| ==>
      ins.serp.entries[i].url == urls[i] && ins.serp.entries[i].previous == fill(urls[i], history)
    ensures ins == InsertSearchResult(env, ctx, search, urls, groups, byGroup, summaries, history, fill)
  {
    history := History.HistoryForSearch(ctx.previousRunId, runsDaysBack, search.id, pageOf);
    ins := InsertSearchResult(env, ctx, search, urls, groups, byGroup, summaries, history, fill);
  }
}
