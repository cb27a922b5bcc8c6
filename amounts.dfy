/** The amount resolver: from a transaction's operation records to `{amount, asset}`
    pairs, and the per-operation report `printTransactionAmounts` writes. */
module Amounts {
  import opened Wrappers
  import opened Fetch
  import opened Horizon
  import opened Seqs

  /** The asset label of operations without an `asset_code`: the native asset. */
  const NATIVE_ASSET: string := "XLM"

  /** The amount a success response carries when no operation has one. */
  const NO_AMOUNT: string := "0"

  datatype Amount = Amount(amount: string, asset: string)

  /** `op.amount` is truthy: present and not the empty string. */
  predicate HasAmount(op: Operation) {
    Truthy(op.amount)
  }

  function HasAmountFn(): Operation -> bool {
    (op: Operation) => HasAmount(op)
  }

  /** `op.asset_code || "XLM"`. */
  function AssetOf(op: Operation): (asset: string)
    ensures asset != ""
    ensures asset == NATIVE_ASSET || Some(asset) == op.assetCode
    ensures Truthy(op.assetCode) ==> Some(asset) == op.assetCode
  {
    if Truthy(op.assetCode) then op.assetCode.value else NATIVE_ASSET
  }

  /** The `{amount, asset}` pair of an operation (its amount is empty when it has none). */
  function ToAmount(op: Operation): Amount {
    Amount(if op.amount.Some? then op.amount.value else "", AssetOf(op))
  }

  /** The operations with a truthy amount, in order, each as its amount and asset. */
  function ResolveAmounts(operations: seq<Operation>): (r: seq<Amount>)
    ensures |r| <= |operations|
    ensures forall i :: 0 <= i < |r| ==> r[i].amount != "" && r[i].asset != ""
    ensures (exists i :: 0 <= i < |operations| && HasAmount(operations[i])) <==> r != []
  {
    if operations == [] then []
    else if HasAmount(operations[0]) then [ToAmount(operations[0])] + ResolveAmounts(operations[1..])
    else ResolveAmounts(operations[1..])
  }

  /** `ResolveAmounts` is the source's `.filter(op => op.amount).map(...)`: the kept
      operations are exactly the ones with an amount, in order. */
  lemma {:induction false} ResolveIsFilterThenMap(operations: seq<Operation>)
    ensures ResolveAmounts(operations) == Map(Filter(operations, HasAmountFn()), ToAmount)
  {
    if operations != [] {
      ResolveIsFilterThenMap(operations[1..]);
      if HasAmount(operations[0]) {
        var kept := Filter(operations[1..], HasAmountFn());
        assert Map([operations[0]] + kept, ToAmount)[1..] == Map(kept, ToAmount);
      }
    }
  }

  /** The amount in a success response (both `statedAmount` and `actualAmount`): the
      first resolved amount, or "0" when there is none. */
  function ReportedAmount(amounts: seq<Amount>): string {
    if |amounts| > 0 then amounts[0].amount else NO_AMOUNT
  }

  /** The reported amount is the amount of the first operation that has one, or "0". */
  lemma ReportedAmountIsFirstAmount(operations: seq<Operation>)
    ensures ReportedAmount(ResolveAmounts(operations))
      == match Find(operations, HasAmountFn())
         case Some(op) => op.amount.value
         case None => NO_AMOUNT
  {
    ResolveIsFilterThenMap(operations);
    FindIsHeadOfFilter(operations, HasAmountFn());
  }

  /** One line of the per-operation report of test.js. */
  datatype OperationLine = AmountLine(amount: string, asset: string) | NoAmountLine

  /** What `printTransactionAmounts` reports for one transaction. */
  datatype Outcome = NoOperations | Lines(lines: seq<OperationLine>) | ProcessingError(error: FetchError)

  datatype TransactionReport = TransactionReport(id: string, outcome: Outcome)

  function LineFor(op: Operation): OperationLine {
    if HasAmount(op) then AmountLine(op.amount.value, AssetOf(op)) else NoAmountLine
  }

  /** The report for one transaction, given what fetching its operations gave: the
      error, "no operations", or one line per operation. */
  function ReportFor(fetched: Result<seq<Operation>, FetchError>): (o: Outcome)
    ensures fetched.Failure? <==> o.ProcessingError?
    ensures o.NoOperations? <==> fetched == Success([])
    ensures o.Lines? ==> (
      && |o.lines| == |fetched.value| > 0
      && forall j :: 0 <= j < |o.lines| ==> (o.lines[j].AmountLine? <==> HasAmount(fetched.value[j])))
  {
    match fetched
    case Failure(e) => ProcessingError(e)
    case Success(ops) => if |ops| == 0 then NoOperations else Lines(Map(ops, LineFor))
  }

  function AmountLines(lines: seq<OperationLine>): seq<Amount> {
    if lines == [] then []
    else match lines[0]
      case AmountLine(a, asset) => [Amount(a, asset)] + AmountLines(lines[1..])
      case NoAmountLine => AmountLines(lines[1..])
  }

  /** The two variants agree: the amount lines of test.js's report are, in order, the
      amounts xlm_test.js resolves from the same operations. */
  lemma {:induction false} ReportAgreesWithResolver(operations: seq<Operation>)
    ensures AmountLines(Map(operations, LineFor)) == ResolveAmounts(operations)
  {
    if operations != [] {
      assert Map(operations, LineFor)[1..] == Map(operations[1..], LineFor);
      ReportAgreesWithResolver(operations[1..]);
    }
  }

  /** `printTransactionAmounts`: one report per transaction, in order; a failure to
      fetch one transaction's operations is reported for that transaction alone and the
      loop goes on with the next. */
  method PrintTransactionAmounts(transactions: seq<TxRecord>, fetchOperations: string -> Result<seq<Operation>, FetchError>)
    returns (report: seq<TransactionReport>)
    ensures |report| == |transactions|
    ensures forall i :: 0 <= i < |transactions| ==>
      report[i] == TransactionReport(transactions[i].id, ReportFor(fetchOperations(transactions[i].id)))
  {
    report := [];
    for i := 0 to |transactions|
      invariant |report| == i
      invariant forall j :: 0 <= j < i ==>
        report[j] == TransactionReport(transactions[j].id, ReportFor(fetchOperations(transactions[j].id)))
    {
      var tx := transactions[i];
      var fetched := fetchOperations(tx.id);
      var outcome: Outcome;
      match fetched {
        case Failure(e) =>
          outcome := ProcessingError(e);
        case Success(operations) =>
          if |operations| == 0 {
            outcome := NoOperations;
          } else {
            outcome := Lines(Map(operations, LineFor));
          }
      }
      report := report + [TransactionReport(tx.id, outcome)];
    }
  }
}
