/** The `/poll_transaction` handler of eth_test.js: poll the explorer's transaction list
    for the wallet once immediately and then every 5 s, answer "success" with the first
    transaction of the expected value sent to the wallet, or "failure" once a poll that
    found nothing runs after the 5-minute deadline. Clock readings (`Date.now()`) and
    the explorer's answers are parameters of the calls. */
module EthWatch {
  import opened Wrappers
  import opened Fetch
  import opened Seqs
  import opened Ascii

  /** 0.1 ETH in wei, compared as a string. */
  const TARGET_VALUE: string := "100000000000000000"

  const POLLING_INTERVAL_MS: int := 5000

  const POLLING_DURATION_MS: int := 5 * 60 * 1000

  /** A record of the explorer's `txlist` answer; only the fields the watcher reads. */
  datatype EthTx = EthTx(hash: string, to: string, value: string)

  /** "success" with the transaction, or "failure". */
  datatype Reply = Paid(transaction: EthTx) | NotFound

  /** `tx.value === targetValue && tx.to.toLowerCase() === walletAddress.toLowerCase()`. */
  predicate PaymentMatches(tx: EthTx, targetValue: string, wallet: string) {
    tx.value == targetValue && ToLower(tx.to) == ToLower(wallet)
  }

  function PaymentMatcher(targetValue: string, wallet: string): EthTx -> bool {
    (tx: EthTx) => PaymentMatches(tx, targetValue, wallet)
  }

  /** A transaction matches iff its value is exactly the target and its destination equals
      the wallet address letter for letter, ignoring ASCII case. */
  lemma PaymentMatchesIff(tx: EthTx, targetValue: string, wallet: string)
    ensures PaymentMatches(tx, targetValue, wallet)
      <==> tx.value == targetValue && |tx.to| == |wallet|
           && forall i :: 0 <= i < |wallet| ==> SameIgnoringCase(tx.to[i], wallet[i])
  {
    ToLowerEqual(tx.to, wallet);
  }

  /** A destination written in another letter case still matches. */
  lemma MixedCaseDestination()
    ensures PaymentMatches(EthTx("0x1", "0xabc", "100000000000000000"), TARGET_VALUE, "0xABC")
    ensures !PaymentMatches(EthTx("0x2", "0xabc", "10000000000000000"), TARGET_VALUE, "0xABC")
  {
    assert ToLower("0xabc") == ToLower("0xABC") == "0xabc";
  }

  /** The `for` loop of `pollTransaction`: the first transaction, in the order the
      explorer returned them, that pays the target value to the wallet. */
  method FindPayment(transactions: seq<EthTx>, targetValue: string, wallet: string) returns (found: Option<EthTx>)
    ensures found.None? <==> forall i :: 0 <= i < |transactions| ==> !PaymentMatches(transactions[i], targetValue, wallet)
    ensures found.Some? ==> PaymentMatches(found.value, targetValue, wallet)
    ensures found == Find(transactions, PaymentMatcher(targetValue, wallet))
  {
    for i := 0 to |transactions|
      invariant forall j :: 0 <= j < i ==> !PaymentMatches(transactions[j], targetValue, wallet)
    {
      var tx := transactions[i];
      if tx.value == targetValue && ToLower(tx.to) == ToLower(wallet) {
        FindIsFirst(transactions, PaymentMatcher(targetValue, wallet), i);
        return Some(tx);
      }
    }
    return None;
  }

  /** The time of the k-th poll of a session started at `start` (the 0-th runs at once). */
  function PollTime(start: int, k: nat): int {
    start + k * POLLING_INTERVAL_MS
  }

  /** One `/poll_transaction` request. */
  class PollTransaction {
    const wallet: string
    const endTime: int
    /** `pollingIntervalId` is registered and not cleared. */
    var pending: bool
    /** Everything sent on the response, in order. */
    var replies: seq<Reply>
    /** Number of explorer requests made. */
    var fetches: nat

    ghost predicate Valid()
      reads this
    {
      (pending <==> replies == []) && |replies| <= 1
    }

    /** The handler's set-up: the deadline is five minutes after `now`. */
    constructor (wallet: string, now: int)
      ensures Valid() && pending && replies == [] && fetches == 0
      ensures this.wallet == wallet && endTime == now + POLLING_DURATION_MS
    {
      this.wallet := wallet;
      endTime := now + POLLING_DURATION_MS;
      pending := true;
      replies := [];
      fetches := 0;
    }

    /** One run of `pollTransaction` at clock reading `now`, `fetched` being the explorer's
        answer. A match clears the interval and answers "success"; the deadline is checked
        only when a fetch succeeded without a match, strictly (`now > endTime`); a failed
        fetch is only logged, so the session stays pending whatever the time. */
    method Tick(now: int, fetched: Result<seq<EthTx>, FetchError>)
      requires Valid()
      modifies this
      ensures Valid()
      ensures !old(pending) ==> unchanged(this)
      ensures old(pending) ==> fetches == old(fetches) + 1
      ensures old(pending) && fetched.Failure? ==> pending
      ensures old(pending) && fetched.Success? ==>
        var found := Find(fetched.value, PaymentMatcher(TARGET_VALUE, wallet));
        replies == if found.Some? then [Paid(found.value)] else if now > endTime then [NotFound] else []
    {
      if !pending {
        return;
      }
      fetches := fetches + 1;
      match fetched {
        case Failure(_) =>
          return;
        case Success(transactions) =>
          var found := FindPayment(transactions, TARGET_VALUE, wallet);
          if found.Some? {
            pending := false;
            replies := replies + [Paid(found.value)];
            return;
          }
          if now > endTime {
            pending := false;
            replies := replies + [NotFound];
          }
      }
    }
  }

  /** The handler: set up the session at `now`, when `endTime` is fixed, and run the first
      poll at once; `readAt` is the `Date.now()` that poll reads after its fetch returns. */
  method StartPolling(wallet: string, now: int, readAt: int, fetched: Result<seq<EthTx>, FetchError>) returns (session: PollTransaction)
    ensures fresh(session) && session.Valid()
    ensures session.wallet == wallet && session.endTime == now + POLLING_DURATION_MS && session.fetches == 1
    ensures fetched.Failure? ==> session.pending
    ensures fetched.Success? ==>
      var found := Find(fetched.value, PaymentMatcher(TARGET_VALUE, wallet));
      session.replies == if found.Some? then [Paid(found.value)] else if readAt > session.endTime then [NotFound] else []
  {
    session := new PollTransaction(wallet, now);
    session.Tick(readAt, fetched);
  }

  /** The index of the first clock reading past `endTime`, or `|times|` when there is none. */
  function FirstLate(times: seq<int>, endTime: int): (n: nat)
    ensures n <= |times|
    ensures forall j :: 0 <= j < n ==> times[j] <= endTime
    ensures n < |times| ==> times[n] > endTime
  {
    if times == [] then 0
    else if times[0] > endTime then 0
    else 1 + FirstLate(times[1..], endTime)
  }

  /** Polls with explorer answers that never contain the payment, the k-th reading the
      clock at `times[k]`: the session stays pending through every poll that reads the
      clock at or before `endTime` and answers "failure" at the first that reads it
      later, after which no poll fetches anything. */
  method PollWithoutPayment(session: PollTransaction, answers: seq<seq<EthTx>>, times: seq<int>)
    requires session.Valid() && session.pending && session.fetches == 0
    requires |times| == |answers|
    requires forall k :: 0 <= k < |answers| ==> Find(answers[k], PaymentMatcher(TARGET_VALUE, session.wallet)) == None
    modifies session
    ensures session.Valid()
    ensures FirstLate(times, session.endTime) == |times| ==> session.pending && session.fetches == |times|
    ensures FirstLate(times, session.endTime) < |times| ==>
      session.replies == [NotFound] && session.fetches == FirstLate(times, session.endTime) + 1
  {
    ghost var n := FirstLate(times, session.endTime);
    for k := 0 to |answers|
      invariant session.Valid()
      invariant k <= n ==> session.pending && session.fetches == k
      invariant k > n ==> session.replies == [NotFound] && session.fetches == n + 1
    {
      session.Tick(times[k], Success(answers[k]));
    }
  }

  /** The k-th poll of a session started at `start` reads the clock no earlier than
      `PollTime(start, k)`, so at most the polls 0 through 60 can read it at or before the
      deadline: with more polls than that, one of the first 62 is late. */
  lemma {:induction false} LateByPollSixtyOne(start: int, times: seq<int>)
    requires forall k :: 0 <= k < |times| ==> times[k] >= PollTime(start, k)
    ensures |times| > 61 ==> FirstLate(times, start + POLLING_DURATION_MS) <= 61
  {
    if |times| > 61 {
      assert times[61] > start + POLLING_DURATION_MS;
      FirstLateAtMost(times, start + POLLING_DURATION_MS, 61);
    }
  }

  lemma {:induction false} FirstLateAtMost(times: seq<int>, endTime: int, k: nat)
    requires k < |times| && times[k] > endTime
    ensures FirstLate(times, endTime) <= k
  {
    if times[0] <= endTime {
      FirstLateAtMost(times[1..], endTime, k - 1);
    }
  }
}
