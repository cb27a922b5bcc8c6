/** The history collector `getTransactionsForAccount`: a do-while loop that requests
    pages of an account's transactions, following each page's `next` cursor, and
    concatenates their records.

    The endpoint is modelled as the sequence of answers it gives to the successive
    requests of one collection: the k-th request is answered by `ledger[k]`, and a
    request past the end of that sequence by an empty page with no `next` link. */
module History {
  import opened Wrappers
  import opened Fetch
  import opened Horizon

  /** The answer to the k-th request of a collection. */
  function Serve(ledger: seq<PageResult>, k: nat): PageResult {
    if k < |ledger| then ledger[k] else Page([], None)
  }

  /** The records a page contributes (none for a failed request). */
  function Records(r: PageResult): seq<TxRecord> {
    if r.Page? then r.records else []
  }

  /** Prepends `prefix` to a successful collection; an error is passed on unchanged. */
  function Prepend(prefix: seq<TxRecord>, r: Result<seq<TxRecord>, FetchError>): Result<seq<TxRecord>, FetchError> {
    match r
    case Failure(e) => Failure(e)
    case Success(rest) => Success(prefix + rest)
  }

  lemma PrependAssociative(a: seq<TxRecord>, b: seq<TxRecord>, r: Result<seq<TxRecord>, FetchError>)
    ensures Prepend(a, Prepend(b, r)) == Prepend(a + b, r)
    ensures Prepend([], r) == r
  {
    if r.Success? {
      assert a + (b + r.value) == (a + b) + r.value;
      assert [] + r.value == r.value;
    }
  }

  /** The loop of `getTransactionsForAccount` from its k-th request on, where `pageToken`
      is the value of the variable of that name when the request is made: an error is
      rethrown with nothing collected, an empty page ends the loop once a cursor is in
      use, and otherwise the page's records are kept and the loop goes on while the
      page's cursor is truthy. */
  function Collect(ledger: seq<PageResult>, k: nat, pageToken: Cursor): Result<seq<TxRecord>, FetchError>
    requires k <= |ledger|
    decreases |ledger| - k
  {
    match Serve(ledger, k)
    case Failed(e) => Failure(e)
    case Page(records, next) =>
      if |records| == 0 && Truthy(pageToken) then Success([])
      else if !Truthy(next) then Success(records)
      else Prepend(records, Collect(ledger, k + 1, next))
  }

  /** After answering the k-th request with `Serve(ledger, k)`, the loop issues another:
      the request succeeded, its page was not an empty one reached through a cursor (every
      request after the first carries one), and its `next` cursor is truthy. */
  predicate Continues(ledger: seq<PageResult>, k: nat) {
    var r := Serve(ledger, k);
    r.Page? && !(|r.records| == 0 && k > 0) && Truthy(r.next)
  }

  /** The first request at or after the k-th after which the loop issues no other. */
  function StopFrom(ledger: seq<PageResult>, k: nat): (n: nat)
    requires k <= |ledger|
    ensures k <= n <= |ledger| && !Continues(ledger, n)
    ensures forall i :: k <= i < n ==> Continues(ledger, i)
    decreases |ledger| - k
  {
    if !Continues(ledger, k) then k else StopFrom(ledger, k + 1)
  }

  /** The index of the last request of a collection: every earlier request leads to
      another, this one does not. */
  function StopIndex(ledger: seq<PageResult>): (n: nat)
    ensures n <= |ledger| && !Continues(ledger, n)
    ensures forall i :: 0 <= i < n ==> Continues(ledger, i)
  {
    StopFrom(ledger, 0)
  }

  lemma StopIndexUnique(ledger: seq<PageResult>, n: nat)
    requires forall i :: 0 <= i < n ==> Continues(ledger, i)
    requires !Continues(ledger, n)
    ensures StopIndex(ledger) == n
  {
  }

  /** The records of the answers to requests k up to (not including) n, in order. */
  function Pages(ledger: seq<PageResult>, k: nat, n: nat): seq<TxRecord>
    decreases n - k
  {
    if k >= n then [] else Records(Serve(ledger, k)) + Pages(ledger, k + 1, n)
  }

  lemma {:induction false} CollectFrom(ledger: seq<PageResult>, k: nat, pageToken: Cursor)
    requires k <= StopIndex(ledger)
    requires k == 0 ==> pageToken == None
    requires k > 0 ==> Serve(ledger, k - 1).Page? && pageToken == Serve(ledger, k - 1).next && Truthy(pageToken)
    ensures var n := StopIndex(ledger);
      Collect(ledger, k, pageToken)
        == if Serve(ledger, n).Failed? then Failure(Serve(ledger, n).error) else Success(Pages(ledger, k, n + 1))
    decreases StopIndex(ledger) - k
  {
    var n := StopIndex(ledger);
    if k < n {
      assert Continues(ledger, k);
      CollectFrom(ledger, k + 1, Serve(ledger, k).next);
    } else {
      assert Pages(ledger, k + 1, n + 1) == [];
      match Serve(ledger, k)
      case Failed(e) =>
      case Page(records, next) =>
        assert Pages(ledger, k, n + 1) == records;
    }
  }

  /** The collection is the concatenation, in fetch order, of the records of every page
      up to and including the one that ends the loop; if that last request fails, its
      error is the outcome and nothing collected before it survives. */
  lemma CollectIsConcatenation(ledger: seq<PageResult>)
    ensures var n := StopIndex(ledger);
      Collect(ledger, 0, None)
        == if Serve(ledger, n).Failed? then Failure(Serve(ledger, n).error) else Success(Pages(ledger, 0, n + 1))
  {
    CollectFrom(ledger, 0, None);
  }

  /** An empty history (a first page with no records and no `next` link) is collected as
      an empty sequence, without error. */
  lemma EmptyFirstPage(ledger: seq<PageResult>, next: Cursor)
    requires |ledger| > 0 && ledger[0] == Page([], next) && !Truthy(next)
    ensures Collect(ledger, 0, None) == Success([])
  {
  }

  /** The cursors sent by the requests of a collection: none on the first request, and on
      every later one the truthy cursor of the previous page's `next` link. */
  predicate FollowsCursors(ledger: seq<PageResult>, requests: seq<Cursor>) {
    && |requests| > 0
    && requests[0] == None
    && forall i :: 0 <= i < |requests| - 1 ==>
         Serve(ledger, i).Page? && requests[i + 1] == Serve(ledger, i).next && Truthy(requests[i + 1])
  }

  /** `getTransactionsForAccount`: the first request carries no cursor, each later one
      the cursor of the previous page's `next` link; `requests` lists the cursors sent. */
  method GetTransactionsForAccount(ledger: seq<PageResult>) returns (result: Result<seq<TxRecord>, FetchError>, requests: seq<Cursor>)
    ensures result == Collect(ledger, 0, None)
    ensures |requests| == StopIndex(ledger) + 1
    ensures FollowsCursors(ledger, requests)
  {
    var transactions: seq<TxRecord> := [];
    var pageToken: Cursor := None;
    var k: nat := 0;
    requests := [];
    PrependAssociative([], [], Collect(ledger, 0, None));
    while true
      invariant k <= |ledger| && |requests| == k
      invariant forall i :: 0 <= i < k ==> Continues(ledger, i)
      invariant k == 0 ==> pageToken == None
      invariant k > 0 ==> FollowsCursors(ledger, requests)
      invariant k > 0 ==> Serve(ledger, k - 1).Page? && pageToken == Serve(ledger, k - 1).next && Truthy(pageToken)
      invariant Collect(ledger, 0, None) == Prepend(transactions, Collect(ledger, k, pageToken))
      decreases |ledger| - k
    {
      var sent := pageToken;
      ghost var old_requests := requests;
      requests := requests + [sent];
      forall i | 0 <= i < |requests| - 1
        ensures Serve(ledger, i).Page? && requests[i + 1] == Serve(ledger, i).next && Truthy(requests[i + 1])
      {
        if i + 1 < k {
          assert requests[i + 1] == old_requests[i + 1];
        } else {
          assert requests[i + 1] == sent;
        }
      }
      if k > 0 {
        assert requests[0] == old_requests[0];
      }
      assert FollowsCursors(ledger, requests);
      var response := Serve(ledger, k);
      if response.Failed? {
        StopIndexUnique(ledger, k);
        result := Failure(response.error);
        return;
      }
      if |response.records| == 0 && Truthy(pageToken) {
        StopIndexUnique(ledger, k);
        assert transactions + [] == transactions;
        result := Success(transactions);
        return;
      }
      if Truthy(response.next) {
        PrependAssociative(transactions, response.records, Collect(ledger, k + 1, response.next));
      } else {
        PrependAssociative(transactions, response.records, Success([]));
        assert response.records + [] == response.records;
      }
      transactions := transactions + response.records;
      pageToken := response.next;
      if !Truthy(pageToken) {
        StopIndexUnique(ledger, k);
        assert transactions + [] == transactions;
        result := Success(transactions);
        return;
      }
      k := k + 1;
    }
  }
}
