/** The summary fetch: both windows page by page, then their fold. */
module SummaryFetch {
  import opened Wrappers
  import opened CostTypes
  import opened Upstream
  import opened Fetch
  import opened Movers

  /** The fold of both windows into a summary; either window's failure is returned as it is. */
  method FetchSummary(currentPages: Pages, previousPages: Pages)
    returns (r: Result<Summary, string>)
    ensures match AllResults(currentPages)
      case Failure(msg) => r == Failure(msg)
      case Success(now) =>
        match AllResults(previousPages)
        case Failure(msg) => r == Failure(msg)
        case Success(before) =>
          r.Success? && IsSummary(r.value, TotalsMap(AllCharges(now)), TotalsMap(AllCharges(before)))
    ensures forall msg :: FailsWith(currentPages, msg) ==> r == Failure(msg)
    ensures NeverFails(currentPages) ==> forall msg :: FailsWith(previousPages, msg) ==> r == Failure(msg)
    ensures NeverFails(currentPages) && NeverFails(previousPages) ==> r.Success?
  {
    var current := ByService(currentPages);
    if current.Failure? {
      return Failure(current.error);
    }
    var previous := ByService(previousPages);
    if previous.Failure? {
      return Failure(previous.error);
    }
    var s := Summarize(current.value, previous.value);
    return Success(s);
  }
}
