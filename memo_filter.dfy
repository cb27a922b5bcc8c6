/** `filterTransactions` and the `find` that picks the paid transaction: a transaction
    matches a memo when its memo type is exactly "text" and its memo is exactly that
    string (no case folding, no trimming, no prefix match). */
module MemoFilter {
  import opened Wrappers
  import opened Horizon
  import opened Seqs

  predicate MemoMatches(tx: TxRecord, memo: string) {
    tx.memoType == "text" && tx.memo == Some(memo)
  }

  function Matcher(memo: string): TxRecord -> bool {
    (tx: TxRecord) => MemoMatches(tx, memo)
  }

  /** `filterTransactions`: exactly the records that match the memo, in history order,
      each as many times as it occurs in the history. */
  function FilterTransactions(transactions: seq<TxRecord>, memo: string): (r: seq<TxRecord>)
    ensures forall i :: 0 <= i < |r| ==> MemoMatches(r[i], memo) && r[i] in transactions
    ensures forall i :: 0 <= i < |transactions| ==> (transactions[i] in r <==> MemoMatches(transactions[i], memo))
    ensures forall i :: 0 <= i < |transactions| ==>
      multiset(r)[transactions[i]] == if MemoMatches(transactions[i], memo) then multiset(transactions)[transactions[i]] else 0
    ensures IsSubsequence(r, transactions)
  {
    FilterIsSubsequence(transactions, Matcher(memo));
    FilterMultiplicity(transactions, Matcher(memo));
    Filter(transactions, Matcher(memo))
  }

  /** Filtering twice by the same memo changes nothing. */
  lemma FilterTransactionsIdempotent(transactions: seq<TxRecord>, memo: string)
    ensures FilterTransactions(FilterTransactions(transactions, memo), memo) == FilterTransactions(transactions, memo)
  {
    FilterIdempotent(transactions, Matcher(memo));
  }

  /** Filtering the collected history is filtering each page and concatenating. */
  lemma FilterTransactionsConcat(a: seq<TxRecord>, b: seq<TxRecord>, memo: string)
    ensures FilterTransactions(a + b, memo) == FilterTransactions(a, memo) + FilterTransactions(b, memo)
  {
    FilterConcat(a, b, Matcher(memo));
  }

  /** The predicate of the `find` at line 169 of xlm_test.js. */
  function HasMemo(memo: string): TxRecord -> bool {
    (tx: TxRecord) => tx.memo == Some(memo)
  }

  /** The transaction `checkTransactions` selects from the filtered list. */
  function SelectTransaction(filtered: seq<TxRecord>, memo: string): Option<TxRecord> {
    Find(filtered, HasMemo(memo))
  }

  /** A transaction is selected iff some record of the history matches the memo, and
      it is the first such record, i.e. the head of the filtered list. */
  lemma SelectIsFirstMatch(transactions: seq<TxRecord>, memo: string)
    ensures var filtered := FilterTransactions(transactions, memo);
      && SelectTransaction(filtered, memo) == Find(transactions, Matcher(memo))
      && SelectTransaction(filtered, memo) == if filtered == [] then None else Some(filtered[0])
  {
    FindInFiltered(transactions, Matcher(memo), HasMemo(memo));
    FindIsHeadOfFilter(transactions, Matcher(memo));
  }

  /** Memo comparison is case-sensitive: a memo differing only in letter case does not
      match. */
  lemma MemoIsCaseSensitive()
    ensures MemoMatches(TxRecord("t1", "text", Some("efbf776c")), "efbf776c")
    ensures !MemoMatches(TxRecord("t2", "text", Some("EFBF776C")), "efbf776c")
    ensures !MemoMatches(TxRecord("t3", "id", Some("efbf776c")), "efbf776c")
  {
  }
}
