/**
 The rank of one target in one result list (GoogleTask.insertSearchResult):
 the first matching URL gives a 1-based rank and the matched URL; no match
 gives UNRANKED and no URL. Also the previous-rank default and the best-rank rule.
 */
module Ranking {
  import opened Wrappers
  import opened Model

  /** Some URL of the list satisfies the target's match predicate. */
  ghost predicate AnyMatch(matches: (Target, string) -> bool, t: Target, urls: seq<string>) {
    exists i :: 0 <= i < |urls| && matches(t, urls[i])
  }

  /** The scan of the result list from index `from` on: the index of the
      first URL the target matches, or None when no URL from there matches. */
  function FirstMatchFrom(matches: (Target, string) -> bool, t: Target, urls: seq<string>, from: nat): (k: Option<nat>)
    requires from <= |urls|
    ensures k.Some? ==> from <= k.value < |urls| && matches(t, urls[k.value])
    ensures k.Some? ==> forall j :: from <= j < k.value ==> !matches(t, urls[j])
    ensures k.None? ==> forall j :: from <= j < |urls| ==> !matches(t, urls[j])
    decreases |urls| - from
  {
    if from == |urls| then None
    else if matches(t, urls[from]) then Some(from)
    else FirstMatchFrom(matches, t, urls, from + 1)
  }

  datatype Ranked = Ranked(rank: int, url: Option<string>)

  /** Rank and matched URL of target `t` in `urls`. */
  function ComputeRank(matches: (Target, string) -> bool, t: Target, urls: seq<string>): (r: Ranked)
    ensures r.url.Some? <==> AnyMatch(matches, t, urls)
    ensures r.url.None? ==> r.rank == UNRANKED
    ensures r.url.Some? ==>
      && 1 <= r.rank <= |urls|
      && r.url.value == urls[r.rank - 1]
      && matches(t, urls[r.rank - 1])
      && forall j :: 0 <= j < r.rank - 1 ==> !matches(t, urls[j])
  {
    match FirstMatchFrom(matches, t, urls, 0)
    case Some(i) => Ranked(i + 1, Some(urls[i]))
    case None => Ranked(UNRANKED, None)
  }

  /** A rank other than UNRANKED is a real position in the list whose URL is
      the matched one, and everything before it fails the match; on a list
      shorter than UNRANKED, the converse holds: UNRANKED means no match. */
  lemma RankPositionIsFirstMatch(matches: (Target, string) -> bool, t: Target, urls: seq<string>)
    requires |urls| < UNRANKED
    ensures var r := ComputeRank(matches, t, urls);
      && (r.rank != UNRANKED <==> AnyMatch(matches, t, urls))
      && (r.rank != UNRANKED ==> 1 <= r.rank <= |urls| && r.url == Some(urls[r.rank - 1])
                                 && forall j :: 0 <= j < r.rank - 1 ==> !matches(t, urls[j]))
      && (r.rank == UNRANKED ==> r.url.None?)
  {
  }

  /** The rank of the previous run for the triple, or UNRANKED without a previous run. */
  function PreviousRank(env: Env, previousRunId: Option<int>, group: int, targetId: int, searchId: int): (p: int)
    ensures previousRunId.None? ==> p == UNRANKED
    ensures previousRunId.Some? ==> p == env.storedRank(previousRunId.value, group, targetId, searchId)
  {
    match previousRunId
    case None => UNRANKED
    case Some(prev) => env.storedRank(prev, group, targetId, searchId)
  }

  /** The rule under which a rank is written as a new best: it is a real
      rank and it is not worse than the stored best (a tie counts). */
  predicate WritesBest(rank: int, best: int) {
    rank != UNRANKED && rank <= best
  }

  /** The best-rank snapshot written for a rank, given the stored best. */
  function BestUpdate(group: int, targetId: int, searchId: int, rank: int, url: Option<string>,
                      best: int, started: int): (b: Option<BestRecord>)
    ensures b.Some? <==> rank != UNRANKED && rank <= best
    ensures b.Some? ==> b.value.rank == rank && b.value.when == started && b.value.url == url
    ensures b.Some? ==> b.value.groupId == group && b.value.targetId == targetId && b.value.searchId == searchId
  {
    if WritesBest(rank, best) then
      Some(BestRecord(group, targetId, searchId, rank, started, url))
    else
      None
  }

  /** The best the store holds once `rank` has been processed against `best`. */
  function NextBest(best: int, rank: int): int {
    if WritesBest(rank, best) then rank else best
  }

  /** A tie writes a new snapshot carrying the same rank, this run's start time and URL. */
  lemma TieStillWritesBest(group: int, targetId: int, searchId: int, rank: int, url: Option<string>, started: int)
    requires rank != UNRANKED
    ensures BestUpdate(group, targetId, searchId, rank, url, rank, started)
         == Some(BestRecord(group, targetId, searchId, rank, started, url))
  {
  }

  /** Processing one rank never makes the stored best worse. */
  lemma BestNeverWorsens(best: int, rank: int)
    ensures NextBest(best, rank) <= best
    ensures rank == UNRANKED ==> NextBest(best, rank) == best
    ensures rank != UNRANKED ==> NextBest(best, rank) == (if rank < best then rank else best)
  {
  }

  /** The best after a sequence of runs' ranks, starting from `best`. */
  function BestOver(best: int, ranks: seq<int>): int
    decreases |ranks|
  {
    if |ranks| == 0 then best else BestOver(NextBest(best, ranks[0]), ranks[1..])
  }

  /** The best after a sequence of ranks is the minimum of the starting best
      and every rank that is not UNRANKED. */
  lemma {:induction false} BestOverIsMinimum(best: int, ranks: seq<int>)
    ensures var m := BestOver(best, ranks);
      && m <= best
      && (forall i :: 0 <= i < |ranks| && ranks[i] != UNRANKED ==> m <= ranks[i])
      && (m == best || exists i :: 0 <= i < |ranks| && ranks[i] != UNRANKED && m == ranks[i])
    decreases |ranks|
  {
    if |ranks| > 0 {
      var nb := NextBest(best, ranks[0]);
      BestOverIsMinimum(nb, ranks[1..]);
      var m := BestOver(best, ranks);
      assert m == BestOver(nb, ranks[1..]);
      forall i | 0 <= i < |ranks| && ranks[i] != UNRANKED
        ensures m <= ranks[i]
      {
        if i > 0 {
          assert ranks[1..][i - 1] == ranks[i];
        }
      }
      if m != best {
        if m == nb {
          assert ranks[0] != UNRANKED && m == ranks[0];
        } else {
          var j :| 0 <= j < |ranks[1..]| && ranks[1..][j] != UNRANKED && m == ranks[1..][j];
          assert ranks[j + 1] == ranks[1..][j];
        }
      }
    }
  }
}
