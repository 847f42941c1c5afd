/** The retry and backoff loop of the model client. */
module ModelClient {
  import opened Wrappers

  datatype Usage = Usage(inputTokens: nat, outputTokens: nat)

  const NO_USAGE := Usage(0, 0)

  /** What the model service does with one request, and after how many milliseconds the context is done if
      that interrupts the pause which would follow. */
  datatype Attempt = Attempt(answer: Answer, interrupted: Option<nat>)
  datatype Answer = Reply(content: string, usage: Usage) | Failure(retryable: bool, error: string)

  datatype ClientError = RequestFailed(error: string) | ContextDone

  /** The service is an arbitrary sequence of attempts. */
  type Service = nat -> Attempt

  function Pow2(n: nat): (p: nat)
    ensures p >= 1
  {
    if n == 0 then 1 else 2 * Pow2(n - 1)
  }

  const BASE_DELAY := 250

  /** Attempt n is followed by a pause and another attempt. */
  ghost predicate Continues(service: Service, n: nat) {
    service(n).answer.Failure? && service(n).answer.retryable && service(n).interrupted.None?
  }

  /** The result of a call whose last attempt is n, the attempt number `used` of this call. */
  ghost predicate Concludes(service: Service, n: nat, used: nat, attempts: int, r: Result<(string, Usage), ClientError>) {
    match service(n).answer
    case Reply(content, usage) => r == Ok((content, usage))
    case Failure(retryable, error) =>
      if retryable && used < attempts then service(n).interrupted.Some? && r == Err(ContextDone)
      else r == Err(RequestFailed(error))
  }

  /** The pause after the attempt number `used` of a call. */
  function Delay(used: nat): nat
    requires used >= 1
  {
    BASE_DELAY * Pow2(used - 1)
  }

  /** A pause ends after its delay, or when the context is done. */
  function Paused(delay: nat, interrupted: Option<nat>): nat {
    if interrupted.Some? && interrupted.value < delay then interrupted.value else delay
  }

  /** The pauses of a call with `used` attempts, the last of which is n. */
  function Slept(service: Service, n: nat, used: nat, r: Result<(string, Usage), ClientError>): nat
    requires used >= 1
  {
    BASE_DELAY * (Pow2(used - 1) - 1) + if r == Err(ContextDone) then Paused(Delay(used), service(n).interrupted) else 0
  }

  method Complete(service: Service, retryCount: int, next: nat)
    returns (r: Result<(string, Usage), ClientError>, next': nat, slept: nat)
    ensures retryCount < 0 ==> r == Ok(("", NO_USAGE)) && next' == next && slept == 0
    ensures retryCount >= 0 ==>
      && next < next' <= next + retryCount + 1
      && (forall n | next <= n < next' - 1 :: Continues(service, n))
      && Concludes(service, next' - 1, next' - next, retryCount + 1, r)
      && slept == Slept(service, next' - 1, next' - next, r)
  {
    var attempts := retryCount + 1;
    var lastErr := None;
    next', slept := next, 0;
    for attempt := 0 to if attempts < 0 then 0 else attempts
      invariant next' == next + attempt && slept == BASE_DELAY * (Pow2(attempt) - 1)
      invariant attempt < attempts || attempts <= 0
      invariant attempt == 0 ==> lastErr.None?
      invariant forall n | next <= n < next' :: Continues(service, n)
    {
      var answer, interrupted := service(next').answer, service(next').interrupted;
      next' := next' + 1;
      if answer.Reply? {
        return Ok((answer.content, answer.usage)), next', slept;
      }
      lastErr := Some(answer.error);
      if !answer.retryable || attempt + 1 >= attempts {
        break;
      }
      slept := slept + Paused(Delay(attempt + 1), interrupted);
      if interrupted.Some? {
        return Err(ContextDone), next', slept;
      }
    }
    r := match lastErr
      case None => Ok(("", NO_USAGE))
      case Some(error) => Err(RequestFailed(error));
  }

  lemma {:induction false} Pow2Monotone(a: nat, b: nat)
    requires a <= b
    ensures Pow2(a) <= Pow2(b)
  {
    if a < b {
      Pow2Monotone(a, b - 1);
    }
  }

  /** The pauses of a call in milliseconds: 250, 500, 1000 and so on, the last one cut short if the context is done before
      it ends. */
  lemma SleptIs(service: Service, n: nat, used: nat, r: Result<(string, Usage), ClientError>)
    requires used >= 1
    requires r == Err(ContextDone) ==> service(n).interrupted.Some?
    ensures r != Err(ContextDone) ==> Slept(service, n, used, r) == 250 * (Pow2(used - 1) - 1)
    ensures r == Err(ContextDone) ==>
      var cut, pause := service(n).interrupted.value, 250 * Pow2(used - 1);
      Slept(service, n, used, r) == 250 * (Pow2(used - 1) - 1) + if cut < pause then cut else pause
  {
  }

  /** The first pause is 250 ms, and each further one doubles. */
  lemma PausesDouble(used: nat)
    requires used >= 1
    ensures Pow2(0) == 1 && Delay(1) == 250 && Delay(used + 1) == 2 * Delay(used)
  {
  }

  ghost predicate AlwaysFails(service: Service, from: nat, to: nat) {
    forall n | from <= n < to :: Continues(service, n)
  }

  /** One call makes at most retryCount + 1 requests and pauses at most 250·(2^retryCount − 1) ms; both are
      reached when every attempt fails in a way that may be retried. */
  lemma PauseBound(service: Service, retryCount: nat, next: nat, next': nat, r: Result<(string, Usage), ClientError>)
    requires next < next' <= next + retryCount + 1
    requires Concludes(service, next' - 1, next' - next, retryCount + 1, r)
    ensures Slept(service, next' - 1, next' - next, r) <= BASE_DELAY * (Pow2(retryCount) - 1)
    ensures AlwaysFails(service, next, next + retryCount + 1) ==>
      && next' - next == retryCount + 1 && r.Err? && r.error.RequestFailed?
      && Slept(service, next' - 1, next' - next, r) == BASE_DELAY * (Pow2(retryCount) - 1)
  {
    var used := next' - next;
    if r == Err(ContextDone) {
      Pow2Monotone(used, retryCount);
    } else {
      Pow2Monotone(used - 1, retryCount);
    }
    if AlwaysFails(service, next, next + retryCount + 1) {
      assert Continues(service, next' - 1);
    }
  }
}
