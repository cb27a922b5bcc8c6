# Payment-confirmation watcher

A Dafny model of the payment-confirmation core of NodeJS-Crypto-Payments. Three
JavaScript programs watch a public ledger for a payment:

- `xlm_test.js` (Stellar, web handler `/check_transaction`): collects the wallet's whole
  transaction history from Horizon by following page cursors, keeps the transactions whose
  text memo equals the requested memo, and, on a match, fetches the transaction's
  operations and answers with its amount. It searches every 5 s and answers "timeout"
  after 60 s.
- `eth_test.js` (Ethereum, web handler `/poll_transaction`): fetches the wallet's
  transaction list from an Etherscan-like explorer once straight away and then every 5 s, and
  answers "success" with the first transaction of exactly 0.1 ETH sent to the wallet, or
  "failure" once a poll without a match runs after the 5-minute deadline.
- `test.js` (Stellar, command-line): the same history collection and memo filter for a fixed
  memo, then one report line per operation of every matching transaction.

Modules, leaves first:

- `Wrappers` (wrappers.dfy): `Option` and `Result`.
- `Fetch` (fetch.dfy): the error of a failed HTTP call, shared by both ledgers.
- `Seqs` (seqs.dfy): order-preserving `Filter`, first-match `Find`, `Map`, and their
  lemmas (subsequence, idempotence, concatenation, first match).
- `Ascii` (ascii.dfy): lower-casing and case-insensitive comparison.
- `Horizon` (horizon.dfy): Stellar transaction and operation records, cursors, page
  answers, and JavaScript truthiness of string-or-missing values.
- `History` (history.dfy): the pagination loop `getTransactionsForAccount` as a method,
  the function `Collect` that follows it step by step, and the theorem that the collection
  is the concatenation of the fetched pages. The loop's two copies, xlm_test.js:31-73 and
  test.js:11-56, differ only in their log lines and share this model.
- `MemoFilter` (memo_filter.dfy): `filterTransactions` and the selection of the paid
  transaction.
- `Amounts` (amounts.dfy): the amount resolver of `xlm_test.js` and the per-operation
  report of `test.js`.
- `Search` (search.dfy): `findFilteredTransactions` (account check, collection, filter).
- `TestScript` (test_script.dfy): `test.js`'s `findFilteredTransactions`, which reports
  and swallows errors.
- `XlmWatch` (xlm_watch.dfy): the `/check_transaction` handler as a class whose fields are
  the interval flag, the timeout timer flag and the responses sent; also the corrected
  handler of the finding below.
- `EthWatch` (eth_watch.dfy): the value-and-destination match, the polling session as a
  class (pending flag, deadline, responses), and the polling schedule.

How the outside world enters the model:

- The transactions endpoint is the sequence `ledger` of the answers it gives to the
  successive requests of one collection. The k-th request is answered by `ledger[k]`
  (a page of records with the cursor of its `next` link, or an error). A request past the
  end of that sequence gets an empty page with no `next` link. The cursor each request
  carried is returned as `requests`.
- The operations endpoint is a parameter: a `Result` for the one transaction that is
  looked up (`xlm_test.js`) or a function from transaction id to `Result` (`test.js`).
- The explorer's answer to one eth poll and the clock reading `Date.now()` are parameters
  of `PollTransaction.Tick`.
- Timer firings are method calls (`Tick`, `Expire`), made one at a time.

Behaviour of the code worth knowing before reading the model:

- A failed operations lookup after a match sends nothing. The interval is already cleared
  (xlm_test.js:171), so the only response left is the timeout (xlm_test.js:201).
- `xlm_test.js` first searches 5 s after the request (xlm_test.js:198); `eth_test.js` polls
  straight away (eth_test.js:109), and its no-payment answer has status "failure".
- `xlm_test.js` sends the timeout response even after a success response (see Findings).
- Neither handler can be cancelled. A missing memo gets a 400 response
  (xlm_test.js:157-160), and a missing account is an error that is logged.

## Model

| member | source | states |
|---|---|---|
| `History.GetTransactionsForAccount` | xlm_test.js:31-73 | The loop's outcome is `Collect` of the ledger. The first request carries no cursor. Every later request carries the truthy cursor of the previous page's `next` link. Exactly `StopIndex + 1` requests are made. |
| `History.CollectIsConcatenation` | xlm_test.js:36-72 | The collected history is the concatenation, in fetch order, of the records of every page up to the last request. If that request fails, the outcome is its error and nothing collected before it is returned. |
| `History.StopIndex` | test.js:32-46 | The last request is the first one after which the loop does not go on. Going on needs a successful answer, a truthy `next` cursor, and a non-empty page whenever a cursor was sent. It always exists, within the recorded answers. |
| `History.EmptyFirstPage` | xlm_test.js:50-63 | An empty first page with no truthy `next` cursor yields an empty history, without error. |
| `MemoFilter.FilterTransactions` | xlm_test.js:96-100 | Keeps exactly the records with memo type "text" and a memo equal to the given one. It keeps them in history order, as a subsequence, and a matching record occurs as often as in the history. |
| `Seqs.FilterMultiplicity` | xlm_test.js:97 | Every element the predicate accepts occurs in the filtered sequence as often as in the input, and any other element not at all, as `Array.prototype.filter` keeps every matching occurrence. |
| `MemoFilter.FilterTransactionsIdempotent` | test.js:76-80 | Filtering twice by the same memo equals filtering once. |
| `MemoFilter.FilterTransactionsConcat` | xlm_test.js:111-113 | Filtering the concatenated pages equals concatenating each page's filtered records. |
| `MemoFilter.SelectIsFirstMatch` | xlm_test.js:166-170 | A transaction is selected iff the filtered list is non-empty. It is the filtered list's first element, which is the first matching record of the whole history. |
| `MemoFilter.MemoIsCaseSensitive` | xlm_test.js:98 | A memo equal but for letter case does not match, and neither does a non-"text" memo type. |
| `Amounts.AssetOf` | xlm_test.js:179 | The asset is the operation's `asset_code` when that is truthy, and "XLM" otherwise; it is never empty. |
| `Amounts.ResolveAmounts` | xlm_test.js:175-180 | The result is no longer than the operation list. Every entry has a non-empty amount and asset. It is non-empty iff some operation has a truthy amount. |
| `Amounts.ResolveIsFilterThenMap` | xlm_test.js:175-180 | The resolved amounts equal the source's pipeline: keep the operations with a truthy amount, in order, then map each to its amount and asset. |
| `Amounts.ReportedAmountIsFirstAmount` | xlm_test.js:186-189 | The amount in the success response is the amount of the first operation that has one, or "0" if none does. |
| `Amounts.ReportFor` | test.js:86-103 | A failed fetch is reported as an error for that transaction alone. No operations is reported as "no operations". Otherwise there is one line per operation, and a line is an amount line iff its operation has a truthy amount. |
| `Amounts.ReportAgreesWithResolver` | test.js:91-97 | The amount lines of the report are, in order, exactly the amounts the web handler resolves from the same operations. |
| `Amounts.PrintTransactionAmounts` | test.js:82-106 | One report per transaction, in order. Each carries the transaction's id and the report of its own fetch, so one failure does not affect the others. |
| `Search.FindFilteredTransactions` | xlm_test.js:103-119 | A missing account fails before any request. Otherwise a collection error is passed on, or the memo-filtered history is returned, with the request cursors as in the collector. |
| `Search.SearchIsFilteredConcatenation` | xlm_test.js:111-114 | A successful search returns the memo-matching records of every fetched page, in fetch order. A failed last request yields its error. |
| `TestScript.FindFilteredTransactions` | test.js:108-124 | A missing account is logged and nothing is fetched. A collection error is logged, not propagated. Otherwise it reports the number of matching transactions and one report for each, in order. |
| `XlmWatch.CheckTransactions` | xlm_test.js:164-195 | The selected transaction is the search's first match. A response is produced iff something was selected and its operations were fetched. Both amounts in it equal the first resolved amount. |
| `XlmWatch.CheckTransaction.constructor` | xlm_test.js:155-205 | Without a truthy memo: a 400 response and no timers. Otherwise: interval and timeout timer registered, nothing sent. |
| `XlmWatch.CheckTransaction.Tick` | xlm_test.js:164-195 | A tick after the interval is cleared changes nothing. Otherwise it counts one search. It clears the interval iff a transaction was selected and appends the success response iff the operations were fetched. A failed search leaves polling on. |
| `XlmWatch.CheckTransaction.Expire` | xlm_test.js:199-205 | The timer fires once. It clears the interval and appends the timeout response, whatever was sent before. |
| `XlmWatch.SearchUntilTimeout` | xlm_test.js:164-205 | Any number of searches that select nothing, then the timer: polling stays on through every search, and the only response is "timeout". |
| `XlmWatch.FoundThenTimedOut` | xlm_test.js:170-205 | A payment found by the first search, then the timer: two responses are sent, "success" and then "timeout". |
| `XlmWatch.CheckTransactionOnce.Tick` | xlm_test.js:170-190 | As the source's tick, but sending the success response also cancels the timer. This keeps the invariant that at most one response is sent, and none iff the timer is still armed. |
| `XlmWatch.CheckTransactionOnce.Expire` | xlm_test.js:199-205 | The timer only fires while armed, and then sends the only response, "timeout". |
| `XlmWatch.FoundOnce` | xlm_test.js:170-205 | The run of `FoundThenTimedOut` against the corrected handler sends exactly one response, the success. |
| `Ascii.ToLowerEqual` | eth_test.js:83 | Two strings are equal after lower-casing iff they have the same length and agree position by position up to ASCII letter case. |
| `EthWatch.PaymentMatchesIff` | eth_test.js:81-84 | A transaction matches iff its value string equals the target exactly and its destination equals the wallet address ignoring ASCII case. |
| `EthWatch.MixedCaseDestination` | eth_test.js:81-84 | "0xabc" matches wallet "0xABC" at the target value; another value does not match. |
| `EthWatch.FindPayment` | eth_test.js:80-88 | Nothing is found iff no transaction matches. Otherwise the one found matches and is `Find`'s result, the first match in the explorer's order (`Seqs.FindIsFirst`). |
| `Seqs.FindIsFirst` | eth_test.js:80-87 | When element i satisfies the predicate and no earlier one does, the search returns element i. This is the early `return` of the eth `for` loop and of `Array.prototype.find`. |
| `EthWatch.PollTransaction.constructor` | eth_test.js:66-69 | The deadline is five minutes (300000 ms) after the request. The session starts pending with nothing sent. |
| `EthWatch.PollTransaction.Tick` | eth_test.js:72-103 | A tick after the interval is cleared changes nothing. A failed fetch is counted and leaves the session pending. A match sends "success" with the first match. Otherwise "failure" is sent iff `now > endTime`. |
| `EthWatch.StartPolling` | eth_test.js:69-109 | The deadline is fixed at the request time, then the first poll runs straight away: the session has fetched once. It has answered "success" iff that poll found the payment, and otherwise "failure" iff its clock reading, taken after the fetch, is past the deadline. |
| `EthWatch.PollWithoutPayment` | eth_test.js:72-103 | With polls that never find the payment, the session stays pending through every poll whose clock reading is at or before `endTime`. It answers "failure" at the first poll that reads a later time, and later polls fetch nothing. |
| `EthWatch.LateByPollSixtyOne` | eth_test.js:67-109 | When the k-th poll reads the clock no earlier than k * 5000 ms after the request, at most polls 0 to 60 read it at or before the deadline. So with more than 61 polls the "failure" comes by the 62nd poll (index 61). |

## Left out

- HTTP requests (`axios.get`, the `limit: 200` and 10 s timeout options, endpoint URLs, API keys): every answer is a parameter. A malformed body that makes the source throw is a `Failed` answer like any other error. An Etherscan answer whose `result` is an error string (a rate-limit message, say) throws nothing: `for…of` runs over its characters, none has the target `value`, and the deadline check still runs. Such an answer is a `Success` with no matching transaction, not a `Failure`.
- Cursor extraction with `new URL(...).searchParams.get("cursor")`: each page carries its cursor, missing when there is no `next` link or no cursor in it.
- Express routing, rendering, status codes beyond the modelled responses, QR-code generation, `fs.writeFileSync`, `dotenv`, `process.exit`, and the UUID-derived memo of `xlm_test.js`: web and file plumbing.
- Timers and concurrency: `setInterval`/`setTimeout` become method calls made one at a time. Overlapping eth polls (they are not awaited) and the order of the xlm interval and timer when both are due at 60 s are not modelled. The xlm methods take no clock, because the xlm code never reads one.
- `parseInt(..., 16)` of the block number and the `startblock` parameter of eth_test.js: these decide which transactions the explorer returns, which is part of the answer parameter.
- Console logging: only `test.js`'s per-operation report is modelled, as returned report entries; other log lines are not.
- `toLowerCase` beyond ASCII: only `A`-`Z` are folded.
- Non-string JSON values: the request memo, a record's memo and an eth destination are strings or missing. A `null` destination, which would make `toLowerCase` throw, is not modelled.
- `EthWatch.PollWithoutPayment`: covers only schedules in which every poll's fetch succeeds. A failed fetch does not advance towards "failure", as `PollTransaction.Tick` states. The clock readings are parameters, so when a late fetch returns is left to the caller.

## Findings

| source | as written | input that shows it | evidently intended | confidence | as-written member | corrected member |
|---|---|---|---|---|---|---|
| xlm_test.js:199-205 | The 60 s timer is never cancelled. After a success response it clears the already-cleared interval and sends a second, "timeout" response on the same request. | A memo whose payment is in the history at the first search, then the timer firing 60 s after the request. | Cancel the timer when the success response is sent, so each request gets exactly one response. | medium; not executed (the second send is attempted; what Express then does is outside the model) | `XlmWatch.FoundThenTimedOut` | `XlmWatch.CheckTransactionOnce.Tick` |
