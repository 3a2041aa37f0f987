/**
 * SubmissionEngine: `snipe_mint`. Detection (indexer polling, then the calldata
 * rewrite) runs once; then up to `maxAttempts` attempts each build, sign and
 * broadcast a transaction and look for its receipt up to three times. Every
 * node call is an oracle value indexed by the attempt number.
 */
module Submission {
  import opened Wrappers
  import Calldata
  import GasPolicy
  import Indexer

  const DEFAULT_MAX_ATTEMPTS: int := 10
  /** `for retry in range(3)`. */
  const RECEIPT_TRIES: nat := 3

  /** One `wait_for_transaction_receipt`: a receipt with its status, or an exception (timeout included). */
  datatype Lookup = Receipt(status: int) | LookupFailed

  /** The answers the three receipt lookups of one broadcast would get; only a prefix is asked for. */
  type Lookups = s: seq<Lookup> | |s| == 3 witness [LookupFailed, LookupFailed, LookupFailed]

  /**
   * What happens to one attempt: the nonce lookup, signing or sending raised,
   * or the transaction went out and its receipt lookups answer as given.
   */
  datatype AttemptScript = SendFails | Sent(lookups: Lookups)

  /** A transaction that reached the node, with what it carried and how many receipt lookups it got. */
  datatype Broadcast = Broadcast(attempt: nat, data: string, value: int, gasPrice: nat, gasLimit: int, lookups: nat)

  datatype DetectError = NoTxHash | BadCalldata(cause: Calldata.CalldataError)

  /** Lines 197-206: find the latest hash with the default deadline, then rewrite its calldata. */
  function Detect(net: nat -> Indexer.Exchange, node: string -> Calldata.TxLookup,
                  beneficiary: Option<Calldata.ChecksumAddress>): (r: Result<string, DetectError>)
    ensures r == Failure(NoTxHash) <==> Indexer.Poll(net, Indexer.DEFAULT_TIMEOUT_MS, 0, 0, 0).hash.None?
    ensures r.Success? ==>
      var h := Indexer.Poll(net, Indexer.DEFAULT_TIMEOUT_MS, 0, 0, 0).hash;
      h.Some? && Calldata.GetCalldata(node(h.value), beneficiary) == Success(r.value)
    ensures r.Success? ==> Calldata.StartsWith0x(r.value) && |r.value| >= Calldata.SLOT_END
    ensures var h := Indexer.Poll(net, Indexer.DEFAULT_TIMEOUT_MS, 0, 0, 0).hash;
      h.Some? ==>
        match Calldata.GetCalldata(node(h.value), beneficiary)
        case Success(c) => r == Success(c)
        case Failure(e) => r == Failure(BadCalldata(e))
  {
    match Indexer.Poll(net, Indexer.DEFAULT_TIMEOUT_MS, 0, 0, 0).hash
    case None => Failure(NoTxHash)
    case Some(h) =>
      match Calldata.GetCalldata(node(h), beneficiary)
      case Success(c) => Success(c)
      case Failure(e) => Failure(BadCalldata(e))
  }

  /** Index of the first lookup that produced a receipt, or `|ls|` when none did. */
  function FirstReceipt(ls: seq<Lookup>): (k: nat)
    ensures k <= |ls|
    ensures forall j :: 0 <= j < k ==> ls[j].LookupFailed?
    ensures k < |ls| ==> ls[k].Receipt?
  {
    if ls == [] then 0
    else if ls[0].Receipt? then 0
    else 1 + FirstReceipt(ls[1..])
  }

  /** Receipt lookups one broadcast gets: up to and including the first receipt, at most three. */
  function LookupsMade(ls: Lookups): (n: nat)
    ensures 1 <= n <= RECEIPT_TRIES
  {
    if FirstReceipt(ls) < RECEIPT_TRIES then FirstReceipt(ls) + 1 else RECEIPT_TRIES
  }

  /**
   * The attempt ends the run (the `return True` of line 235): some lookup among
   * the three returns a receipt with status 1 and every lookup before it raised.
   */
  predicate Confirmed(s: AttemptScript)
    ensures Confirmed(s) <==>
      s.Sent? &&
      exists j :: 0 <= j < RECEIPT_TRIES && s.lookups[j] == Receipt(1) &&
                  forall i :: 0 <= i < j ==> s.lookups[i].LookupFailed?
  {
    s.Sent? && FirstReceipt(s.lookups) < RECEIPT_TRIES && s.lookups[FirstReceipt(s.lookups)].status == 1
  }

  /** The broadcasts of attempts 1..n, in order; an attempt whose send raised leaves none. */
  function Broadcasts(data: string, value: int, script: nat -> AttemptScript,
                      estimate: nat -> Option<int>, n: nat): (b: seq<Broadcast>)
    ensures |b| <= n
    ensures n >= 1 && script(n).Sent? ==>
      && |b| >= 1
      && b[|b| - 1].attempt == n
      && b[|b| - 1].gasPrice == GasPolicy.GasPrice(n)
      && b[|b| - 1].lookups == LookupsMade(script(n).lookups)
  {
    if n == 0 then []
    else Broadcasts(data, value, script, estimate, n - 1) + AttemptBroadcast(data, value, script(n), estimate, n)
  }

  /** What attempt `n` puts on the wire: nothing when its send raised, else one broadcast. */
  function AttemptBroadcast(data: string, value: int, s: AttemptScript,
                            estimate: nat -> Option<int>, n: nat): (b: seq<Broadcast>)
    ensures |b| == (if s.Sent? then 1 else 0)
  {
    match s
    case SendFails => []
    case Sent(ls) =>
      [Broadcast(n, data, value, GasPolicy.GasPrice(n), GasPolicy.GasLimit(estimate(n)), LookupsMade(ls))]
  }

  /**
   * Every broadcast of attempts 1..n carries the rewritten calldata, the value,
   * the price of its own attempt and the clamped limit, and gets one to three
   * receipt lookups; there is at most one per attempt, in attempt order.
   */
  lemma {:induction false} BroadcastsWellFormed(data: string, value: int, script: nat -> AttemptScript,
                                                estimate: nat -> Option<int>, n: nat)
    ensures var b := Broadcasts(data, value, script, estimate, n);
      && |b| <= n
      && (forall i :: 0 <= i < |b| ==>
            && 1 <= b[i].attempt <= n
            && script(b[i].attempt).Sent?
            && b[i].data == data && b[i].value == value
            && b[i].gasPrice == GasPolicy.GasPrice(b[i].attempt) <= GasPolicy.MAX_GAS_PRICE
            && b[i].gasLimit == GasPolicy.GasLimit(estimate(b[i].attempt))
            && 1 <= b[i].lookups <= RECEIPT_TRIES)
      && (forall i, j :: 0 <= i < j < |b| ==> b[i].attempt < b[j].attempt)
  {
    if n > 0 {
      BroadcastsWellFormed(data, value, script, estimate, n - 1);
      var b' := Broadcasts(data, value, script, estimate, n - 1);
      var t := AttemptBroadcast(data, value, script(n), estimate, n);
      assert Broadcasts(data, value, script, estimate, n) == b' + t;
      assert forall i :: 0 <= i < |t| ==> t[i].attempt == n && script(n).Sent?;
    }
  }

  /** Every attempt among 1..n whose send went through appears among the broadcasts. */
  lemma {:induction false} SentAttemptsBroadcast(data: string, value: int, script: nat -> AttemptScript,
                                                 estimate: nat -> Option<int>, n: nat, k: nat)
    requires 1 <= k <= n && script(k).Sent?
    ensures exists i ::
              0 <= i < |Broadcasts(data, value, script, estimate, n)| &&
              Broadcasts(data, value, script, estimate, n)[i].attempt == k
  {
    var b := Broadcasts(data, value, script, estimate, n);
    if k == n {
      assert b[|b| - 1].attempt == k;
    } else {
      SentAttemptsBroadcast(data, value, script, estimate, n - 1, k);
      var b' := Broadcasts(data, value, script, estimate, n - 1);
      var i :| 0 <= i < |b'| && b'[i].attempt == k;
      assert b == b' + AttemptBroadcast(data, value, script(n), estimate, n);
      assert 0 <= i < |b| && b[i].attempt == k;
    }
  }

  /**
   * `snipe_mint(contract_address, value, max_attempts)`. Returns the boolean the
   * source returns, the number of attempts begun, and the broadcasts made.
   */
  method SnipeMint(net: nat -> Indexer.Exchange, node: string -> Calldata.TxLookup,
                   beneficiary: Option<Calldata.ChecksumAddress>, value: int, maxAttempts: int,
                   script: nat -> AttemptScript, estimate: nat -> Option<int>)
    returns (ok: bool, attempts: nat, trace: seq<Broadcast>)
    ensures Detect(net, node, beneficiary).Failure? ==> !ok && attempts == 0 && trace == []
    ensures Detect(net, node, beneficiary).Success? ==>
      && attempts <= (if maxAttempts > 0 then maxAttempts else 0)
      && trace == Broadcasts(Detect(net, node, beneficiary).value, value, script, estimate, attempts)
      && (forall k :: 1 <= k < attempts ==> !Confirmed(script(k)))
      && (ok <==> attempts >= 1 && Confirmed(script(attempts)))
      && (!ok ==> attempts == (if maxAttempts > 0 then maxAttempts else 0))
    ensures ok ==> |trace| >= 1 && trace[|trace| - 1].attempt == attempts
  {
    ok, attempts, trace := false, 0, [];
    var hash, _, _, _ := Indexer.LatestTxHash(net, Indexer.DEFAULT_TIMEOUT_MS);
    if hash.Failure? {
      assert Detect(net, node, beneficiary) == Failure(NoTxHash);
      return;
    }
    assert Indexer.Poll(net, Indexer.DEFAULT_TIMEOUT_MS, 0, 0, 0).hash == Some(hash.value);
    var calldata := Calldata.GetCalldata(node(hash.value), beneficiary);
    if calldata.Failure? {
      assert Detect(net, node, beneficiary) == Failure(BadCalldata(calldata.error));
      return;
    }
    var data := calldata.value;
    assert Detect(net, node, beneficiary) == Success(data);
    ok, attempts, trace := RunAttempts(data, value, maxAttempts, script, estimate);
  }

  /**
   * The attempt loop of lines 208-247 once the calldata is known: attempts
   * 1, 2, ... run until one is confirmed or `maxAttempts` have been made.
   */
  method RunAttempts(data: string, value: int, maxAttempts: int,
                     script: nat -> AttemptScript, estimate: nat -> Option<int>)
    returns (ok: bool, attempts: nat, trace: seq<Broadcast>)
    ensures attempts <= (if maxAttempts > 0 then maxAttempts else 0)
    ensures trace == Broadcasts(data, value, script, estimate, attempts)
    ensures forall k :: 1 <= k < attempts ==> !Confirmed(script(k))
    ensures ok <==> attempts >= 1 && Confirmed(script(attempts))
    ensures !ok ==> attempts == (if maxAttempts > 0 then maxAttempts else 0)
    ensures ok ==> |trace| >= 1 && trace[|trace| - 1].attempt == attempts
  {
    ok, attempts, trace := false, 0, [];
    while attempts < maxAttempts
      invariant attempts == 0 || attempts <= maxAttempts
      invariant trace == Broadcasts(data, value, script, estimate, attempts)
      invariant forall k :: 1 <= k <= attempts ==> !Confirmed(script(k))
      decreases maxAttempts - attempts
    {
      attempts := attempts + 1;
      var confirmed, sent := RunAttempt(data, value, script(attempts), estimate, attempts);
      trace := trace + sent;
      if confirmed {
        assert sent == [sent[0]] && sent[0].attempt == attempts;
        ok := true;
        return;
      }
    }
  }

  /**
   * One pass of the attempt loop (lines 211-242): broadcast unless the send
   * raises, then up to three receipt lookups, stopping at the first receipt.
   * `confirmed` is the `return True`.
   */
  method RunAttempt(data: string, value: int, s: AttemptScript, estimate: nat -> Option<int>, n: nat)
    returns (confirmed: bool, sent: seq<Broadcast>)
    ensures confirmed <==> Confirmed(s)
    ensures sent == AttemptBroadcast(data, value, s, estimate, n)
  {
    confirmed, sent := false, [];
    match s
    case SendFails =>
    case Sent(ls) =>
      var gasPrice := GasPolicy.GasPrice(n);
      var gasLimit := GasPolicy.GasLimit(estimate(n));
      var used := 0;
      for retry := 0 to RECEIPT_TRIES
        invariant used == retry
        invariant forall j :: 0 <= j < retry ==> ls[j].LookupFailed?
      {
        used := retry + 1;
        match ls[retry]
        case Receipt(status) =>
          confirmed := status == 1;
          break;
        case LookupFailed =>
      }
      sent := [Broadcast(n, data, value, gasPrice, gasLimit, used)];
  }

  /** Attempts 1 and 2 fail on chain, attempt 3 is confirmed: the run stops there and reports success. */
  method ThirdAttemptScenario() {
    var net := (k: nat) => Indexer.Exchange(0, Indexer.Http(200, ["0xab"]));
    var node := (h: string) => Calldata.Found(Some(Calldata.Text("0xa9059cbb")));
    var operator: Calldata.ChecksumAddress := "0x" + Calldata.Zeros(40);
    var onChainFailure: Lookups := [Receipt(0), LookupFailed, LookupFailed];
    var success: Lookups := [LookupFailed, Receipt(1), LookupFailed];
    var script := (k: nat) => if k < 3 then Sent(onChainFailure) else Sent(success);
    var estimate := (k: nat) => None;
    assert Indexer.Poll(net, Indexer.DEFAULT_TIMEOUT_MS, 0, 0, 0).hash == Some("0xab");
    var ok, attempts, trace := SnipeMint(net, node, Some(operator), 0, DEFAULT_MAX_ATTEMPTS, script, estimate);
    assert Confirmed(script(3));
    assert attempts == 3 && ok;
    var data := Detect(net, node, Some(operator)).value;
    assert trace == Broadcasts(data, 0, script, estimate, 2) + [Broadcast(3, data, 0, GasPolicy.GasPrice(3), GasPolicy.GasLimit(None), LookupsMade(success))];
    assert |Broadcasts(data, 0, script, estimate, 1)| == 1;
    assert |Broadcasts(data, 0, script, estimate, 2)| == 2;
    assert |trace| == 3 && trace[2].gasPrice == 80 * GasPolicy.GWEI && trace[2].lookups == 2;
  }
}
