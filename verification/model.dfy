/**
 The entities the rank-check task works on. Identifiers are plain integers,
 timestamps are an abstract integer clock, URLs are strings and a nullable
 URL is an `Option<string>`.
 */
module Model {
  import opened Wrappers

  /** The rank sentinel for "no URL of the result list matched the target".
      It is `Short.MAX_VALUE`, larger than any rank a result page can yield. */
  const UNRANKED: int := 32767

  /** A tracked URL pattern; whether it matches a URL is decided by `Env.matches`. */
  datatype Target = Target(id: int, groupId: int, name: string, pattern: string)

  /** A query unit. Its group memberships are read from the store. */
  datatype Search = Search(id: int, keyword: string)

  /** One egress route: either a configured proxy or the direct-connection fallback. */
  datatype Proxy = DirectNoProxy | Configured(proxyId: int)

  /** One computed rank: run, group, target, search, rank, the previous run's rank, matched URL. */
  datatype RankRecord = RankRecord(
    runId: int, groupId: int, targetId: int, searchId: int,
    rank: int, previousRank: int, url: Option<string>)

  /** A new best-rank snapshot for a (group, target, search) triple. */
  datatype BestRecord = BestRecord(
    groupId: int, targetId: int, searchId: int,
    rank: int, when: int, url: Option<string>)

  /** Per-target scoring state of one run. Scoring itself is not modelled:
      `candidates` holds the rank records fed to the summary, in order. */
  datatype Summary = Summary(
    groupId: int, targetId: int, runId: int,
    previousScore: int, candidates: seq<RankRecord>)

  /** One entry of a stored result page: its URL and the positions the
      same URL held in the historical pages, keyed by day offset. */
  datatype SerpEntry = SerpEntry(url: string, previous: map<int, int>)

  /** The stored result page of one (run, search) pair. */
  datatype Serp = Serp(runId: int, searchId: int, when: int, entries: seq<SerpEntry>)

  /** The terminal statuses doRun can return. */
  datatype Status = DoneSuccess | DoneWithError

  /** The part of a run record the final status decision writes: its error
      count. The run's id and start time are those of its `RunContext`. */
  datatype Run = Run(errors: int)

  /**
   What GoogleTask reads from outside itself, as pure functions:
   - `matches(t, url)`: the target's own match predicate;
   - `bestRank(group, target, search)`: the rank of the stored best for the triple;
   - `storedRank(run, group, target, search)`: the rank stored by an earlier run.
   */
  datatype Env = Env(
    matches: (Target, string) -> bool,
    bestRank: (int, int, int) -> int,
    storedRank: (int, int, int, int) -> int)

  /** The run being executed: its id, start time and the preceding run, if any. */
  datatype RunContext = RunContext(runId: int, started: int, previousRunId: Option<int>)

  /** The registered targets of a group; a group with none has an empty list. */
  function TargetsOf(byGroup: map<int, seq<Target>>, group: int): seq<Target> {
    if group in byGroup then byGroup[group] else []
  }

  /** Every registered target has a summary to feed, under its own group. */
  ghost predicate SummariesCover(byGroup: map<int, seq<Target>>, summaries: map<int, Summary>) {
    forall g, t :: g in byGroup && t in byGroup[g] ==> t.groupId == g && t.id in summaries
  }
}
