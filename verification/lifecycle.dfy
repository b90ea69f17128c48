/**
 The stop condition of the workers (GoogleTask.shouldStop) and the final
 status decision of GoogleTask.doRun.
 */
module Lifecycle {
  import opened Model

  /** Workers stop once every search is done or the run was interrupted. */
  function ShouldStop(searchDone: int, totalSearch: int, interrupted: bool): (stop: bool)
    ensures !interrupted ==> (stop <==> searchDone == totalSearch)
    ensures interrupted ==> stop
  {
    if searchDone == totalSearch then true
    else if interrupted then true
    else false
  }

  datatype RunEnd = RunEnd(status: Status, run: Run)

  /** The status doRun returns once the workers have joined, and the run with
      its error count: the number of searches left unchecked, if any. */
  function FinishRun(run: Run, totalSearch: int, searchDone: int): (e: RunEnd)
    ensures e.status == DoneSuccess || e.status == DoneWithError
    ensures e.status == DoneWithError <==> searchDone < totalSearch
    ensures e.status == DoneWithError ==> e.run == run.(errors := totalSearch - searchDone) && e.run.errors > 0
    ensures e.status == DoneSuccess ==> e.run == run
  {
    var remaining := totalSearch - searchDone;
    if remaining > 0 then RunEnd(DoneWithError, run.(errors := remaining))
    else RunEnd(DoneSuccess, run)
  }

  /** With no more searches done than dispatched, the run succeeds exactly
      when every search was done, which is when uninterrupted workers stop;
      otherwise errors and done searches add up to the total. */
  lemma StatusMatchesStopCondition(run: Run, totalSearch: int, searchDone: int)
    requires 0 <= searchDone <= totalSearch
    ensures var e := FinishRun(run, totalSearch, searchDone);
      && (e.status == DoneSuccess <==> ShouldStop(searchDone, totalSearch, false))
      && (e.status == DoneWithError ==> e.run.errors + searchDone == totalSearch)
  {
  }

  /** Three searches dispatched and three done: the run succeeds with its error count untouched. */
  lemma AllDoneScenario(run: Run)
    ensures FinishRun(run, 3, 3) == RunEnd(DoneSuccess, run)
  {
  }
}
