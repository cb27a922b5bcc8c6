/** The command-line script test.js: search the configured account for the fixed memo
    and report the amounts of every matching transaction, logging instead of
    propagating any error. */
module TestScript {
  import opened Wrappers
  import opened Fetch
  import opened Horizon
  import opened History
  import opened MemoFilter
  import opened Amounts
  import opened Search

  /** The memo the script searches for. */
  const MEMO_TO_FILTER: string := "efbf776c"

  /** What the run logs: the error it caught, or the number of matching transactions
      followed by one report per transaction. */
  datatype RunLog = SearchFailed(error: SearchError) | Reported(found: nat, reports: seq<TransactionReport>)

  /** test.js's `findFilteredTransactions`: an error from the account check or from the
      collection ends the run with that error logged (nothing is propagated); otherwise
      every matching transaction is reported, in history order. */
  method FindFilteredTransactions(account: Option<string>, ledger: seq<PageResult>,
                                  fetchOperations: string -> Result<seq<Operation>, FetchError>)
    returns (log: RunLog, requests: seq<Cursor>)
    ensures !Truthy(account) ==> log == SearchFailed(MissingAccount) && requests == []
    ensures Truthy(account) ==> FollowsCursors(ledger, requests) && |requests| == StopIndex(ledger) + 1
    ensures log.SearchFailed? <==> SearchResult(account, ledger, MEMO_TO_FILTER).Failure?
    ensures log.SearchFailed? ==> log.error == SearchResult(account, ledger, MEMO_TO_FILTER).error
    ensures log.Reported? ==>
      var filtered := SearchResult(account, ledger, MEMO_TO_FILTER).value;
      && log.found == |filtered| == |log.reports|
      && forall i :: 0 <= i < |filtered| ==>
           log.reports[i] == TransactionReport(filtered[i].id, ReportFor(fetchOperations(filtered[i].id)))
  {
    var filtered;
    filtered, requests := Search.FindFilteredTransactions(account, ledger, MEMO_TO_FILTER);
    match filtered {
      case Failure(e) =>
        log := SearchFailed(e);
      case Success(transactions) =>
        var reports := PrintTransactionAmounts(transactions, fetchOperations);
        log := Reported(|transactions|, reports);
    }
  }
}
