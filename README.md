# Reliable request delivery, modelled in Dafny

This project models `do_reliable_request` from
`homework/tasks/reliable_request.py`. The function issues up to
`max_attempts` sequential GET requests to one URL. Any `httpx.HTTPError`
raised while getting the response, checking its status or reading its body
counts as a failed attempt. A failed attempt uses up one attempt and raises
the per-attempt timeout by 5. The body of the first successful response goes
to the `ResultsObserver` exactly once, and then the function returns. When
the attempts run out, it simply returns `None`. Any other exception
propagates at once.

Everything is in one module, `ReliableRequest` (`reliable_request.dfy`):

- The network is an oracle `network: nat -> Outcome`. The n-th GET that a
  client issues (counting from 0) ends with `network(n)`. An `Outcome` is
  one of three things: `Ok(body)` (the status check and the read both
  passed), `HttpError` (any `httpx.HTTPError`) or `OtherError` (any other
  exception).
- `Client` stands for the `httpx.AsyncClient` that one call opens. It records
  every `Call(url, timeout)` it is asked to make.
- `ResultsObserver` keeps a ghost log of the payloads it receives.
- `Run` / `Request` are the loop as a function. They give the `Trace` of a
  call: the transport calls, the observer log and the way the call ends.
- `IsRunFrom` / `IsRunOf` describe the same trace without recursion. The
  i-th call uses timeout `timeout + 5*i`. Every call but the last met an
  HTTP error. The last outcome, or the used-up budget, decides the exit.
  The two lemmas `RunIsRunFrom` and `IsRunFromDeterminesRun` show that the
  loop and this description agree in both directions.
- `DoReliableRequest` is the imperative method: a `while` loop over the
  locals `attempt` and `timeout`. Its postcondition says that the client's
  calls, the observer's new log entries and the exit are exactly those of
  `Request`. The defaults `max_attempts = 10` and `timeout = 1.0` are kept.

`Exit` is an addition of the model. `Delivered` and `Exhausted` are both the
source's plain `return None`. `Raised` stands for an exception that
propagates out of the call. The flag lets the contracts tell these outcomes
apart.

As `reliable_request.py:31-43` is written, the function raises no error when
the attempts run out: after the loop it returns normally. It does not check
`max_attempts`: a value of zero or less makes no call and returns normally.
The timeout increment is the constant 5, not a setting.

## Model

| member | source | states |
|---|---|---|
| `ReliableRequest.Run` | homework/tasks/reliable_request.py:33-43 | the loop from a given attempt on (`Request` is `Run` from attempt 0, the initialisation at line 31): it hands at most one payload to the observer, only when it ends by delivering after at least one call, and never makes more calls than the attempts left |
| `ReliableRequest.RunIsRunFrom` | homework/tasks/reliable_request.py:33-43 | the loop's trace meets the description: call i uses timeout `timeout + 5*i`, every call but the last failed with an HTTP error, and the last outcome or the used-up budget decides the exit and what is delivered |
| `ReliableRequest.IsRunFromDeterminesRun` | homework/tasks/reliable_request.py:33-43 | any trace that meets the description is the loop's trace, so the description fixes the behaviour completely |
| `ReliableRequest.RequestCharacterized` | homework/tasks/reliable_request.py:31-43 | a trace is what a whole call produces if and only if it meets the description, starting from attempt 0 |
| `ReliableRequest.SuccessStopsAtFirstOk` | homework/tasks/reliable_request.py:33-40 | when the first k attempts fail with HTTP errors and attempt k+1, within the budget, succeeds, exactly k+1 calls are made, that attempt's body is delivered once, and the call returns |
| `ReliableRequest.OtherErrorPropagates` | homework/tasks/reliable_request.py:34-41 | when the first outcome that is not an HTTP error is some other exception, it propagates right after that call, with no further attempt and no delivery |
| `ReliableRequest.AllHttpErrorsExhaust` | homework/tasks/reliable_request.py:33-43 | when every attempt within the budget fails with an HTTP error, exactly `max(0, max_attempts - attempt)` calls are made, nothing is delivered, and the call returns normally |
| `ReliableRequest.NonPositiveBudgetMakesNoCall` | homework/tasks/reliable_request.py:31-33 | with `max_attempts <= 0`, no call is made, nothing is delivered, and no error is raised |
| `ReliableRequest.TimeoutSchedule` | homework/tasks/reliable_request.py:33-43 | there are never more calls than `max(0, max_attempts)`; every call goes to the one URL; call i (from 0) uses timeout `timeout + 5*i`, so the timeouts strictly increase |
| `ReliableRequest.DeliveryIsOnceAndFromSuccess` | homework/tasks/reliable_request.py:36-40 | the observer gets at most one payload; it gets one exactly when the call ends by delivering, and that payload is the body of the last attempt, which succeeded; a normal return without delivery means all `max(0, max_attempts)` attempts were made and every one of them failed with an HTTP error |
| `ReliableRequest.ResultsObserver.Observe` | homework/tasks/reliable_request.py:6-8 | `observe` appends the payload it is given to the observer's log |
| `ReliableRequest.Client.constructor` | homework/tasks/reliable_request.py:32 | a freshly opened client has made no calls |
| `ReliableRequest.Client.Get` | homework/tasks/reliable_request.py:35-37 | one GET with the given URL and timeout is recorded, and its outcome is the oracle's answer for that call's position |
| `ReliableRequest.DoReliableRequest` | homework/tasks/reliable_request.py:11-43 | the loop opens a fresh client; its recorded calls, the payloads added to the observer's log and the way it ends are exactly those of `Request` |

## Left out

- `homework/tasks/pg_task.py` (`ItemStorage`, `ItemEntry`) is not part of this model. It only opens an asyncpg pool and runs SQL that the database executes, so there is no local logic to verify.
- The real HTTP behaviour of `client.get`, `raise_for_status` and `read` is left out. Each attempt is one oracle outcome, and the status codes that count as errors are folded into `HttpError`.
- Opening and closing the `httpx.AsyncClient` (the `async with` block) is left out beyond the client being fresh and empty at the start.
- `async`/`await` and cancellation are left out. The loop is sequential, so it is an ordinary method.
- Floating-point rounding of the timeout is left out. The timeout is a `real`, so `+ 5` is exact.
- The wall-clock meaning of the timeout is left out. Only the value passed to each call is modelled.
- ResultsObserver.Observe: an observer that raises is not modelled. In the source `observer.observe` sits inside the `try`, so an observer raising `httpx.HTTPError` would consume an attempt and could be called again. The model's observer never raises.
- `ResultsObserver` is abstract in the source. The model has one concrete observer that only records what it receives.
