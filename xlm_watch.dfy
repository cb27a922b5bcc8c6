/** The `/check_transaction` handler of xlm_test.js: a request carrying a memo starts an
    interval that searches the wallet's history every 5 s, and a separate 60 s timer that
    stops the interval and answers "timeout". Timer firings are the method calls `Tick`
    and `Expire`, made one at a time by the caller in the order the timers fire. */
module XlmWatch {
  import opened Wrappers
  import opened Fetch
  import opened Horizon
  import opened MemoFilter
  import opened Amounts
  import opened Search

  /** The interval between two searches; the first runs one interval after the request. */
  const POLL_INTERVAL_MS: int := 5000

  /** The delay of the timer that answers "timeout". */
  const TIME_LIMIT_MS: int := 60000

  /** What the handler sends on its response: 400 "Memo is required.", a success
      response, or the timeout response. */
  datatype Reply = BadRequest | Found(transaction: TxRecord, statedAmount: string, actualAmount: string) | TimedOut

  /** The transaction a search selects: the first record of the filtered history whose
      memo equals the requested one; none when the search failed. */
  function Selected(wallet: string, ledger: seq<PageResult>, memo: string): Option<TxRecord> {
    match SearchResult(Some(wallet), ledger, memo)
    case Failure(_) => None
    case Success(filtered) => SelectTransaction(filtered, memo)
  }

  /** The success response for a selected transaction whose operations were fetched; no
      response when nothing was selected or when fetching the operations failed. */
  function SuccessReply(selected: Option<TxRecord>, operations: Result<seq<Operation>, FetchError>): Option<Reply> {
    if selected.None? || operations.Failure? then None
    else
      var amount := ReportedAmount(ResolveAmounts(operations.value));
      Some(Found(selected.value, amount, amount))
  }

  function Sent(r: Option<Reply>): seq<Reply> {
    if r.Some? then [r.value] else []
  }

  /** The body of `checkTransactions`, without its effect on the timers: search
      the history, select the transaction, and build the success response from the
      operations fetched for it. A failed search or fetch yields no response (the `catch`
      only logs). */
  method CheckTransactions(wallet: string, ledger: seq<PageResult>, memo: string, operations: Result<seq<Operation>, FetchError>)
    returns (selected: Option<TxRecord>, reply: Option<Reply>)
    ensures selected == Selected(wallet, ledger, memo)
    ensures reply.Some? <==> selected.Some? && operations.Success?
    ensures reply.Some? ==> (
      && reply.value.Found?
      && reply.value.transaction == selected.value
      && reply.value.statedAmount == reply.value.actualAmount == ReportedAmount(ResolveAmounts(operations.value)))
  {
    var filtered, _ := FindFilteredTransactions(Some(wallet), ledger, memo);
    if filtered.Failure? {
      return None, None;
    }
    selected := SelectTransaction(filtered.value, memo);
    if selected.None? {
      return selected, None;
    }
    match operations {
      case Failure(_) =>
        reply := None;
      case Success(ops) =>
        var amounts := ResolveAmounts(ops);
        reply := Some(Found(selected.value, ReportedAmount(amounts), ReportedAmount(amounts)));
    }
  }

  /** One `/check_transaction` request, as the source handles it. */
  class CheckTransaction {
    const wallet: string
    const memo: string
    /** The interval `pollingInterval` is registered and not cleared. */
    var polling: bool
    /** The 60 s timer has not fired yet (nothing ever cancels it). */
    var timerArmed: bool
    /** Everything sent on the response, in order. */
    var replies: seq<Reply>
    /** Number of history searches started. */
    var searches: nat

    ghost predicate Valid()
      reads this
    {
      && (polling ==> timerArmed && replies == [])
      && (timerArmed ==> |replies| <= 1 && BadRequest !in replies)
      && (!polling && !timerArmed ==> |replies| >= 1)
      && |replies| <= 2
    }

    /** The handler: without a truthy memo it answers 400 and schedules nothing;
        otherwise it registers the interval and the timer and answers nothing yet. */
    constructor (wallet: string, requestMemo: Option<string>)
      ensures Valid()
      ensures this.wallet == wallet && searches == 0
      ensures !Truthy(requestMemo) ==> !polling && !timerArmed && replies == [BadRequest]
      ensures Truthy(requestMemo) ==> polling && timerArmed && replies == [] && memo == requestMemo.value
    {
      this.wallet := wallet;
      if !Truthy(requestMemo) {
        memo := "";
        polling, timerArmed := false, false;
        replies := [BadRequest];
      } else {
        memo := requestMemo.value;
        polling, timerArmed := true, true;
        replies := [];
      }
      searches := 0;
    }

    /** A firing of the interval, given the history the search would be answered with
        and what fetching the selected transaction's operations would give. A selected
        transaction clears the interval before its operations are fetched, so a failed
        fetch leaves no response and no further search. */
    method Tick(ledger: seq<PageResult>, operations: Result<seq<Operation>, FetchError>)
      requires Valid()
      modifies this
      ensures Valid()
      ensures !old(polling) ==> unchanged(this)
      ensures old(polling) ==>
        var selected := Selected(wallet, ledger, memo);
        && searches == old(searches) + 1
        && timerArmed == old(timerArmed)
        && polling == selected.None?
        && replies == old(replies) + Sent(SuccessReply(selected, operations))
    {
      if !polling {
        return;
      }
      searches := searches + 1;
      var selected, reply := CheckTransactions(wallet, ledger, memo, operations);
      if selected.Some? {
        polling := false;
      }
      if reply.Some? {
        replies := replies + [reply.value];
      }
    }

    /** The 60 s timer firing: it clears the interval and sends the timeout response,
        whatever was sent before. */
    method Expire()
      requires Valid()
      modifies this
      ensures Valid()
      ensures !old(timerArmed) ==> unchanged(this)
      ensures old(timerArmed) ==>
        !polling && !timerArmed && searches == old(searches) && replies == old(replies) + [TimedOut]
    {
      if !timerArmed {
        return;
      }
      polling, timerArmed := false, false;
      replies := replies + [TimedOut];
    }
  }

  /** The same request with the timer cancelled once the success response is sent: the
      interval and the timer together send exactly one response. */
  class CheckTransactionOnce {
    const wallet: string
    const memo: string
    var polling: bool
    var timerArmed: bool
    var replies: seq<Reply>
    var searches: nat

    ghost predicate Valid()
      reads this
    {
      && (polling ==> timerArmed)
      && |replies| <= 1
      && (replies == [] <==> timerArmed)
    }

    constructor (wallet: string, requestMemo: Option<string>)
      ensures Valid()
      ensures this.wallet == wallet && searches == 0
      ensures !Truthy(requestMemo) ==> !polling && !timerArmed && replies == [BadRequest]
      ensures Truthy(requestMemo) ==> polling && timerArmed && replies == [] && memo == requestMemo.value
    {
      this.wallet := wallet;
      if !Truthy(requestMemo) {
        memo := "";
        polling, timerArmed := false, false;
        replies := [BadRequest];
      } else {
        memo := requestMemo.value;
        polling, timerArmed := true, true;
        replies := [];
      }
      searches := 0;
    }

    /** As `CheckTransaction.Tick`, except that sending the success response also
        cancels the timer. */
    method Tick(ledger: seq<PageResult>, operations: Result<seq<Operation>, FetchError>)
      requires Valid()
      modifies this
      ensures Valid()
      ensures !old(polling) ==> unchanged(this)
      ensures old(polling) ==>
        var selected := Selected(wallet, ledger, memo);
        var reply := SuccessReply(selected, operations);
        && searches == old(searches) + 1
        && timerArmed == reply.None?
        && polling == selected.None?
        && replies == Sent(reply)
    {
      if !polling {
        return;
      }
      searches := searches + 1;
      var selected, reply := CheckTransactions(wallet, ledger, memo, operations);
      if selected.Some? {
        polling := false;
      }
      if reply.Some? {
        timerArmed := false;
        replies := replies + [reply.value];
      }
    }

    method Expire()
      requires Valid()
      modifies this
      ensures Valid()
      ensures !old(timerArmed) ==> unchanged(this)
      ensures old(timerArmed) ==> !polling && !timerArmed && searches == old(searches) && replies == [TimedOut]
    {
      if !timerArmed {
        return;
      }
      polling, timerArmed := false, false;
      replies := replies + [TimedOut];
    }
  }

  /** Searches that never select a transaction, then the timer (the interval fires at
      5 s, 10 s, ..., 55 s before it): polling goes on through every search and the only
      response is the timeout. */
  method SearchUntilTimeout(check: CheckTransaction, ledgers: seq<seq<PageResult>>, operations: Result<seq<Operation>, FetchError>)
    requires check.Valid() && check.polling && check.searches == 0
    requires forall k :: 0 <= k < |ledgers| ==> Selected(check.wallet, ledgers[k], check.memo) == None
    modifies check
    ensures check.Valid() && !check.polling && !check.timerArmed
    ensures check.searches == |ledgers| && check.replies == [TimedOut]
  {
    for k := 0 to |ledgers|
      invariant check.Valid() && check.polling && check.timerArmed && check.replies == []
      invariant check.searches == k
    {
      check.Tick(ledgers[k], operations);
    }
    check.Expire();
  }

  /** A payment found by the first search, followed by the 60 s timer: the handler as
      written sends two responses, the success response and then the timeout. */
  method FoundThenTimedOut() returns (replies: seq<Reply>)
    ensures |replies| == 2 && replies[0].Found? && replies[1] == TimedOut
  {
    var tx := TxRecord("tx1", "text", Some("a1b2c3d"));
    var check := new CheckTransaction("GWALLET", Some("a1b2c3d"));
    assert Selected("GWALLET", [Page([tx], None)], "a1b2c3d") == Some(tx);
    check.Tick([Page([tx], None)], Success([Operation("tx1", Some("30.0000000"), None)]));
    check.Expire();
    replies := check.replies;
  }

  /** The same run with the timer cancelled on success: one response. */
  method FoundOnce() returns (replies: seq<Reply>)
    ensures |replies| == 1 && replies[0].Found?
  {
    var tx := TxRecord("tx1", "text", Some("a1b2c3d"));
    var check := new CheckTransactionOnce("GWALLET", Some("a1b2c3d"));
    assert Selected("GWALLET", [Page([tx], None)], "a1b2c3d") == Some(tx);
    check.Tick([Page([tx], None)], Success([Operation("tx1", Some("30.0000000"), None)]));
    check.Expire();
    replies := check.replies;
  }
}
