/*
 * A model of `do_reliable_request` (homework/tasks/reliable_request.py):
 * up to `max_attempts` sequential GET attempts against one URL, every
 * `httpx.HTTPError` absorbed as a failed attempt that raises the per-attempt
 * timeout by 5, and the body of the first successful response handed to the
 * results observer exactly once.
 *
 * The network is an oracle: the n-th GET issued by a client (counting from 0)
 * has the outcome `network(n)`.  The observer keeps a ghost log of every
 * payload it was given.
 */
module ReliableRequest {

  newtype Byte = b: int | 0 <= b < 256

  type Bytes = seq<Byte>

  /** The amount the source adds to the timeout after each failed attempt. */
  const TimeoutStep: real := 5.0

  /** What one attempt (`client.get`, `raise_for_status`, `read`) ends with. */
  datatype Outcome =
    | Ok(body: Bytes)   // a response that passed raise_for_status and whose body was read
    | HttpError         // any httpx.HTTPError: transport error, timeout, non-2xx status, read error
    | OtherError        // any other exception (httpx.InvalidURL, for one): not absorbed

  /** One GET issued to the transport, with the timeout it was given. */
  datatype Call = Call(url: string, timeout: real)

  /**
   * How a call of `do_reliable_request` ends.  `Delivered` and `Exhausted` are
   * both the source's plain `return None`; `Raised` is an exception that
   * propagates out of it.
   */
  datatype Exit = Delivered | Exhausted | Raised

  /** The observable effect of one call: transport calls, observer log, exit. */
  datatype Trace = Trace(calls: seq<Call>, delivered: seq<Bytes>, exit: Exit)

  function Max(a: int, b: int): int { if a < b then b else a }

  /**
   * The loop, from the state `attempt`/`timeout` on: the specification the
   * imperative method below is proved against.
   */
  function Run(url: string, network: nat -> Outcome, maxAttempts: int, attempt: nat, timeout: real): (r: Trace)
    ensures |r.delivered| <= 1
    ensures r.delivered != [] ==> r.exit == Delivered && r.calls != []
    ensures r.calls == [] || attempt + |r.calls| <= maxAttempts
    decreases maxAttempts - attempt
  {
    if attempt >= maxAttempts then
      Trace([], [], Exhausted)
    else
      match network(attempt)
      case Ok(body) => Trace([Call(url, timeout)], [body], Delivered)
      case OtherError => Trace([Call(url, timeout)], [], Raised)
      case HttpError =>
        var rest := Run(url, network, maxAttempts, attempt + 1, timeout + TimeoutStep);
        Trace([Call(url, timeout)] + rest.calls, rest.delivered, rest.exit)
  }

  /** The whole call: the loop started with `attempt = 0`. */
  function Request(url: string, network: nat -> Outcome, maxAttempts: int, timeout: real): Trace
  {
    Run(url, network, maxAttempts, 0, timeout)
  }

  /**
   * An independent, non-recursive description of a run that starts at
   * attempt `attempt` with timeout `timeout`: the i-th call goes to `url`
   * with timeout `timeout + 5*i`, every call but the last met an HTTP error,
   * and the last call (or the exhausted attempt budget) decides the exit.
   */
  ghost predicate IsRunFrom(tr: Trace, url: string, network: nat -> Outcome, maxAttempts: int, attempt: nat, timeout: real)
  {
    var n := |tr.calls|;
    (forall i :: 0 <= i < n ==> tr.calls[i] == Call(url, timeout + TimeoutStep * (i as real))) &&
    (forall j :: attempt <= j < attempt + n - 1 ==> network(j) == HttpError) &&
    match tr.exit
    case Delivered =>
      0 < n && attempt + n <= maxAttempts &&
      network(attempt + n - 1).Ok? && tr.delivered == [network(attempt + n - 1).body]
    case Raised =>
      0 < n && attempt + n <= maxAttempts &&
      network(attempt + n - 1) == OtherError && tr.delivered == []
    case Exhausted =>
      n == Max(0, maxAttempts - attempt) &&
      (n == 0 || network(attempt + n - 1) == HttpError) && tr.delivered == []
  }

  ghost predicate IsRunOf(tr: Trace, url: string, network: nat -> Outcome, maxAttempts: int, timeout: real)
  {
    IsRunFrom(tr, url, network, maxAttempts, 0, timeout)
  }

  /** The loop meets the description. */
  lemma {:induction false} RunIsRunFrom(url: string, network: nat -> Outcome, maxAttempts: int, attempt: nat, timeout: real)
    ensures IsRunFrom(Run(url, network, maxAttempts, attempt, timeout), url, network, maxAttempts, attempt, timeout)
    decreases maxAttempts - attempt
  {
    if attempt < maxAttempts && network(attempt) == HttpError {
      var tr := Run(url, network, maxAttempts, attempt, timeout);
      var rest := Run(url, network, maxAttempts, attempt + 1, timeout + TimeoutStep);
      RunIsRunFrom(url, network, maxAttempts, attempt + 1, timeout + TimeoutStep);
      assert tr.calls == [Call(url, timeout)] + rest.calls;
      forall i | 0 <= i < |tr.calls|
        ensures tr.calls[i] == Call(url, timeout + TimeoutStep * (i as real))
      {
        if i > 0 {
          assert tr.calls[i] == rest.calls[i - 1];
        }
      }
      if rest.calls != [] {
        assert network(attempt + 1 + |rest.calls| - 1) == network(attempt + |tr.calls| - 1);
      }
    }
  }

  /** The description determines the run: no other trace meets it. */
  lemma {:induction false} IsRunFromDeterminesRun(tr: Trace, url: string, network: nat -> Outcome, maxAttempts: int, attempt: nat, timeout: real)
    requires IsRunFrom(tr, url, network, maxAttempts, attempt, timeout)
    ensures tr == Run(url, network, maxAttempts, attempt, timeout)
    decreases maxAttempts - attempt
  {
    var n := |tr.calls|;
    if attempt >= maxAttempts {
      assert n == 0;
    } else {
      assert 0 < n;
      assert tr.calls[0] == Call(url, timeout);
      match network(attempt)
      case Ok(body) =>
        assert n == 1;
      case OtherError =>
        assert n == 1;
      case HttpError =>
        assert tr.exit == Exhausted ==> n == maxAttempts - attempt;
        assert n > 1 || tr.exit == Exhausted;
        var tail := Trace(tr.calls[1..], tr.delivered, tr.exit);
        forall i | 0 <= i < n - 1
          ensures tail.calls[i] == Call(url, timeout + TimeoutStep + TimeoutStep * (i as real))
        {
          assert tail.calls[i] == tr.calls[i + 1];
        }
        if n > 1 {
          assert attempt + 1 + (n - 1) - 1 == attempt + n - 1;
        }
        assert IsRunFrom(tail, url, network, maxAttempts, attempt + 1, timeout + TimeoutStep);
        IsRunFromDeterminesRun(tail, url, network, maxAttempts, attempt + 1, timeout + TimeoutStep);
        assert tr.calls == [tr.calls[0]] + tail.calls;
    }
  }

  /** A trace is the one the source produces exactly when it meets the description. */
  lemma RequestCharacterized(tr: Trace, url: string, network: nat -> Outcome, maxAttempts: int, timeout: real)
    ensures tr == Request(url, network, maxAttempts, timeout) <==> IsRunOf(tr, url, network, maxAttempts, timeout)
  {
    RunIsRunFrom(url, network, maxAttempts, 0, timeout);
    if IsRunOf(tr, url, network, maxAttempts, timeout) {
      IsRunFromDeterminesRun(tr, url, network, maxAttempts, 0, timeout);
    }
  }

  /**
   * The first k attempts fail with HTTP errors and attempt k+1 (0-based index
   * k), within the budget, succeeds: exactly k+1 transport calls, its body
   * delivered once, return.
   */
  lemma SuccessStopsAtFirstOk(url: string, network: nat -> Outcome, maxAttempts: int, timeout: real, k: nat)
    requires k < maxAttempts
    requires forall i :: 0 <= i < k ==> network(i) == HttpError
    requires network(k).Ok?
    ensures var r := Request(url, network, maxAttempts, timeout);
      |r.calls| == k + 1 && r.delivered == [network(k).body] && r.exit == Delivered
  {
    var r := Request(url, network, maxAttempts, timeout);
    RunIsRunFrom(url, network, maxAttempts, 0, timeout);
    var n := |r.calls|;
    if n < k + 1 {
      assert false;
    }
    if n > k + 1 {
      assert false;
    }
  }

  /**
   * Some attempt within the budget raises an exception that is not an
   * `httpx.HTTPError`: it propagates at once, nothing is delivered.
   */
  lemma OtherErrorPropagates(url: string, network: nat -> Outcome, maxAttempts: int, timeout: real, k: nat)
    requires k < maxAttempts
    requires forall i :: 0 <= i < k ==> network(i) == HttpError
    requires network(k) == OtherError
    ensures var r := Request(url, network, maxAttempts, timeout);
      |r.calls| == k + 1 && r.delivered == [] && r.exit == Raised
  {
    var r := Request(url, network, maxAttempts, timeout);
    RunIsRunFrom(url, network, maxAttempts, 0, timeout);
    var n := |r.calls|;
    if n < k + 1 {
      assert false;
    }
    if n > k + 1 {
      assert false;
    }
  }

  /**
   * Every attempt within the budget fails with an HTTP error: exactly
   * max_attempts calls (none when it is not positive), no delivery, and a
   * normal return rather than an exception.
   */
  lemma {:induction false} AllHttpErrorsExhaust(url: string, network: nat -> Outcome, maxAttempts: int, attempt: nat, timeout: real)
    requires forall i :: attempt <= i < maxAttempts ==> network(i) == HttpError
    ensures var r := Run(url, network, maxAttempts, attempt, timeout);
      |r.calls| == Max(0, maxAttempts - attempt) && r.delivered == [] && r.exit == Exhausted
    decreases maxAttempts - attempt
  {
    if attempt < maxAttempts {
      AllHttpErrorsExhaust(url, network, maxAttempts, attempt + 1, timeout + TimeoutStep);
    }
  }

  /** A budget of zero or less makes no transport call and raises no error. */
  lemma NonPositiveBudgetMakesNoCall(url: string, network: nat -> Outcome, maxAttempts: int, timeout: real)
    requires maxAttempts <= 0
    ensures Request(url, network, maxAttempts, timeout) == Trace([], [], Exhausted)
  {
  }

  /**
   * Attempt i (0-based) goes to the one URL with timeout `timeout + 5*i`, so
   * the timeouts strictly increase; there are never more calls than the budget.
   */
  lemma TimeoutSchedule(url: string, network: nat -> Outcome, maxAttempts: int, timeout: real)
    ensures var r := Request(url, network, maxAttempts, timeout);
      |r.calls| <= Max(0, maxAttempts) &&
      (forall i :: 0 <= i < |r.calls| ==>
         r.calls[i].url == url && r.calls[i].timeout == timeout + TimeoutStep * (i as real)) &&
      (forall i, j :: 0 <= i < j < |r.calls| ==> r.calls[i].timeout < r.calls[j].timeout)
  {
    var r := Request(url, network, maxAttempts, timeout);
    RunIsRunFrom(url, network, maxAttempts, 0, timeout);
    forall i, j | 0 <= i < j < |r.calls|
      ensures r.calls[i].timeout < r.calls[j].timeout
    {
      assert r.calls[i].timeout == timeout + TimeoutStep * (i as real);
      assert r.calls[j].timeout == timeout + TimeoutStep * (j as real);
    }
  }

  /**
   * The observer is given at most one payload, and only the body of the last
   * attempt, which succeeded; a normal return without delivery means the
   * budget was used up by HTTP errors.
   */
  lemma DeliveryIsOnceAndFromSuccess(url: string, network: nat -> Outcome, maxAttempts: int, timeout: real)
    ensures var r := Request(url, network, maxAttempts, timeout);
      |r.delivered| <= 1 &&
      (r.delivered != [] <==> r.exit == Delivered) &&
      (r.exit == Delivered ==>
         network(|r.calls| - 1).Ok? && r.delivered == [network(|r.calls| - 1).body]) &&
      (r.exit == Exhausted ==>
         |r.calls| == Max(0, maxAttempts) &&
         forall i :: 0 <= i < |r.calls| ==> network(i) == HttpError)
  {
    RunIsRunFrom(url, network, maxAttempts, 0, timeout);
  }

  /**
   * The source's `ResultsObserver`: a single `observe` operation.  The model
   * keeps a ghost log of every payload it receives.
   */
  class ResultsObserver {
    ghost var observed: seq<Bytes>

    constructor ()
      ensures observed == []
    {
      observed := [];
    }

    method Observe(data: Bytes)
      modifies this
      ensures observed == old(observed) + [data]
    {
      observed := observed + [data];
    }
  }

  /**
   * The HTTP client of one call: every GET it issues is recorded, and the
   * n-th one (from 0) ends with `network(n)`.
   */
  class Client {
    const network: nat -> Outcome
    var calls: seq<Call>

    constructor (network: nat -> Outcome)
      ensures this.network == network && calls == []
    {
      this.network := network;
      calls := [];
    }

    /** `client.get(url, timeout=timeout)`, `raise_for_status()` and `read()`. */
    method Get(url: string, timeout: real) returns (o: Outcome)
      modifies this
      ensures calls == old(calls) + [Call(url, timeout)]
      ensures o == network(|old(calls)|)
    {
      o := network(|calls|);
      calls := calls + [Call(url, timeout)];
    }
  }

  /**
   * `do_reliable_request`: the client it opens, the calls it makes, what it
   * hands to the observer and how it ends are those of `Request`.
   */
  method DoReliableRequest(url: string, observer: ResultsObserver, network: nat -> Outcome,
                           maxAttempts: int := 10, timeout: real := 1.0)
    returns (exit: Exit, client: Client)
    modifies observer
    ensures fresh(client) && client.network == network
    ensures var r := Request(url, network, maxAttempts, timeout);
      client.calls == r.calls && observer.observed == old(observer.observed) + r.delivered && exit == r.exit
  {
    var attempt: nat := 0;
    var t := timeout;
    client := new Client(network);
    while attempt < maxAttempts
      invariant maxAttempts >= 0 ==> attempt <= maxAttempts
      invariant t == timeout + TimeoutStep * (attempt as real)
      invariant |client.calls| == attempt
      invariant observer.observed == old(observer.observed)
      invariant client.network == network
      invariant var r := Run(url, network, maxAttempts, attempt, t);
        Request(url, network, maxAttempts, timeout) == Trace(client.calls + r.calls, r.delivered, r.exit)
      decreases maxAttempts - attempt
    {
      ghost var before := client.calls;
      ghost var rest := Run(url, network, maxAttempts, attempt + 1, t + TimeoutStep);
      var o := client.Get(url, t);
      match o
      case Ok(data) =>
        observer.Observe(data);
        return Delivered, client;
      case OtherError =>
        return Raised, client;
      case HttpError =>
        assert client.calls + rest.calls == before + ([Call(url, t)] + rest.calls);
        attempt := attempt + 1;
        t := t + TimeoutStep;
    }
    exit := Exhausted;
  }
}
