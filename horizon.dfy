/** The Stellar Horizon records the watchers read, and JavaScript truthiness of the
    string-or-missing values they test. */
module Horizon {
  import opened Wrappers
  import opened Fetch

  /** A transaction record from `/accounts/{id}/transactions`. `memo` is absent for
      transactions without a memo. */
  datatype TxRecord = TxRecord(id: string, memoType: string, memo: Option<string>)

  /** An operation record from `/transactions/{id}/operations`; `amount` and
      `asset_code` are missing on operations that carry none. */
  datatype Operation = Operation(transactionId: string, amount: Option<string>, assetCode: Option<string>)

  /** A pagination cursor as read from the `cursor` query parameter of a page's `next`
      link: `None` when the page has no `next` link or the link has no cursor. */
  type Cursor = Option<string>

  /** What the transactions endpoint answers to one request: a page of records with
      its continuation cursor, or an error. */
  datatype PageResult = Page(records: seq<TxRecord>, next: Cursor) | Failed(error: FetchError)

  /** JavaScript truthiness of a value that is either missing or a string: missing and
      the empty string are falsy. */
  predicate Truthy(v: Option<string>) {
    v.Some? && v.value != ""
  }
}
