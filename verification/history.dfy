/**
 Historical result pages (GoogleTask.initializePreviousRuns and getHistory):
 the runs 1, 7, 30 and 90 days back, and the pages of a search they stored.
 */
module History {
  import opened Wrappers
  import opened Model

  /** The day offsets whose earlier runs are compared with. */
  const DayOffsets: seq<int> := [1, 7, 30, 90]

  /** For each offset of `days`, in order, the first run found that many
      days back, when one exists. `runsDaysBack(d)` lists the runs of the
      module on the day `d` days before this run's day. */
  function RunsByDay(days: seq<int>, runsDaysBack: int -> seq<int>): (m: map<int, int>)
    ensures forall d :: d in m <==> d in days && |runsDaysBack(d)| > 0
    ensures forall d :: d in m ==> m[d] == runsDaysBack(d)[0]
  {
    if |days| == 0 then map[]
    else
      var rest := RunsByDay(days[1..], runsDaysBack);
      var d := days[0];
      if |runsDaysBack(d)| > 0 then rest[d := runsDaysBack(d)[0]] else rest
  }

  /** The day-offset table of a run: empty without a previous run, otherwise
      the offsets of DayOffsets for which a run exists that many days back. */
  function PreviousRunsByDay(previousRunId: Option<int>, runsDaysBack: int -> seq<int>): (m: map<int, int>)
    ensures previousRunId.None? ==> m == map[]
    ensures m.Keys <= {1, 7, 30, 90}
    ensures previousRunId.Some? ==>
      forall d :: d in m <==> d in DayOffsets && |runsDaysBack(d)| > 0
    ensures forall d :: d in m ==> m[d] == runsDaysBack(d)[0]
  {
    if previousRunId.None? then map[] else RunsByDay(DayOffsets, runsDaysBack)
  }

  /** The historical pages of one search: for every offset of the table whose
      run stored a page for the search, that page. `pageOf(run, search)` is
      the store's page lookup; `order` lists the table's offsets in the
      (unspecified) order the table yields them. */
  method GetHistory(runsByDay: map<int, int>, order: seq<int>, searchId: int, pageOf: (int, int) -> Option<Serp>)
    returns (history: map<int, Serp>)
    requires forall d :: d in runsByDay <==> d in order
    ensures history.Keys <= runsByDay.Keys
    ensures forall d :: d in runsByDay ==> (d in history <==> pageOf(runsByDay[d], searchId).Some?)
    ensures forall d :: d in history ==> pageOf(runsByDay[d], searchId) == Some(history[d])
  {
    forall j | 0 <= j < |order| ensures order[j] in runsByDay {
      var d := order[j];
      assert d in order;
    }
    history := map[];
    var i := 0;
    while i < |order|
      invariant i <= |order|
      invariant forall j :: 0 <= j < |order| ==> order[j] in runsByDay
      invariant history.Keys <= runsByDay.Keys
      invariant forall j :: 0 <= j < i ==>
        (order[j] in history <==> pageOf(runsByDay[order[j]], searchId).Some?)
      invariant forall e :: e in history ==> pageOf(runsByDay[e], searchId) == Some(history[e])
    {
      var d := order[i];
      var page := pageOf(runsByDay[d], searchId);
      if page.Some? {
        history := history[d := page.value];
      }
      i := i + 1;
    }
  }

  /** The offsets of `days` that are keys of the table, in the order of `days`. */
  function KeysIn(days: seq<int>, runsByDay: map<int, int>): (ks: seq<int>)
    ensures forall d :: d in ks <==> d in days && d in runsByDay
  {
    if |days| == 0 then []
    else (if days[0] in runsByDay then [days[0]] else []) + KeysIn(days[1..], runsByDay)
  }

  /** The history of any search only ever uses the offsets 1, 7, 30 and 90,
      is empty for a run without a previous run, and maps each offset to the
      page stored by the first run that many days back. */
  method HistoryForSearch(previousRunId: Option<int>, runsDaysBack: int -> seq<int>, searchId: int,
                          pageOf: (int, int) -> Option<Serp>)
    returns (history: map<int, Serp>)
    ensures history.Keys <= {1, 7, 30, 90}
    ensures previousRunId.None? ==> history == map[]
    ensures forall d :: d in history <==>
      previousRunId.Some? && d in DayOffsets && |runsDaysBack(d)| > 0
      && pageOf(runsDaysBack(d)[0], searchId).Some?
    ensures forall d :: d in history ==> pageOf(runsDaysBack(d)[0], searchId) == Some(history[d])
  {
    var byDay := PreviousRunsByDay(previousRunId, runsDaysBack);
    history := GetHistory(byDay, KeysIn(DayOffsets, byDay), searchId, pageOf);
  }
}
