/** `findFilteredTransactions`: refuse to run without an account address, otherwise
    collect the account's history and keep the records that match the memo. */
module Search {
  import opened Wrappers
  import opened Fetch
  import opened Horizon
  import opened History
  import opened MemoFilter

  datatype SearchError = MissingAccount | CollectionFailed(error: FetchError)

  /** The outcome of a search: the missing-account error is raised before any request,
      a collection error is passed on, otherwise the matching records of the history. */
  function SearchResult(account: Option<string>, ledger: seq<PageResult>, memo: string): Result<seq<TxRecord>, SearchError> {
    if !Truthy(account) then Failure(MissingAccount)
    else match Collect(ledger, 0, None)
      case Failure(e) => Failure(CollectionFailed(e))
      case Success(history) => Success(FilterTransactions(history, memo))
  }

  /** A successful search returns, in history order, the memo-matching records of every
      page the collection fetched. */
  lemma SearchIsFilteredConcatenation(account: Option<string>, ledger: seq<PageResult>, memo: string)
    requires Truthy(account)
    ensures var n := StopIndex(ledger);
      SearchResult(account, ledger, memo)
        == if Serve(ledger, n).Failed? then Failure(CollectionFailed(Serve(ledger, n).error))
           else Success(FilterTransactions(Pages(ledger, 0, n + 1), memo))
  {
    CollectIsConcatenation(ledger);
  }

  /** `findFilteredTransactions` of xlm_test.js (test.js inlines the same steps):
      `requests` lists the cursors of the requests made, none when the account is
      missing. */
  method FindFilteredTransactions(account: Option<string>, ledger: seq<PageResult>, memo: string)
    returns (result: Result<seq<TxRecord>, SearchError>, requests: seq<Cursor>)
    ensures result == SearchResult(account, ledger, memo)
    ensures !Truthy(account) ==> requests == []
    ensures Truthy(account) ==> FollowsCursors(ledger, requests) && |requests| == StopIndex(ledger) + 1
  {
    if !Truthy(account) {
      return Failure(MissingAccount), [];
    }
    var transactions;
    transactions, requests := GetTransactionsForAccount(ledger);
    match transactions {
      case Failure(e) =>
        result := Failure(CollectionFailed(e));
      case Success(history) =>
        result := Success(FilterTransactions(history, memo));
    }
  }
}
