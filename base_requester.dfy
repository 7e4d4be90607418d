// The HTTP requester the sync service's connector builds on
// (src/utils/base_requester.py): the base-URL normalisation, `_build_url`, and
// the retry loop of `_send_request`. The network is not modelled: what the
// k-th request and the k-th run of the pre-request hook do are parameters
// (`send(k)` and `hook(k)`, the hook described in the same terms as a request:
// it completes when it answers below 400 and raises otherwise), and a wait is recorded instead of slept. The rate
// limiter, headers, logging and content-type decoding are left out.

module BaseRequester {
  import opened Common

  /** What one request does: the server answers with a status and a body, or the connection fails
      (`aiohttp.ClientError`), or something else is raised. */
  datatype Outcome = Answered(status: int, body: string) | ClientFailure | OtherFailure

  /** What `_send_request` raises. */
  datatype Error =
    | StatusError(status: int)       // `ClientResponseError` from `raise_for_status`
    | ClientError                    // any other `aiohttp.ClientError`
    | OtherException                 // any other exception
    | RetriesExhausted(retries: int) // "Failed to … after N attempts."

  datatype Response = Body(content: string) | Raised(error: Error)

  /** The settings the retry loop reads. */
  datatype Config = Config(retries: int, backoffFactor: real, retryStatusCodes: seq<int>, hasHook: bool)

  /** The run of `_send_request`: its response, the requests sent, the waits between attempts, the
      runs of the hook, and `_is_hook_running` at the end. */
  datatype Trace = Trace(response: Response, sent: nat, waits: seq<real>, hookRuns: nat, hookRunning: bool)

  /** One attempt: its result, whether a request went out, whether the hook ran, and the flag after it. */
  datatype Step = Step(result: Result<string, Error>, sent: bool, hookRan: bool, hookRunning: bool)

  // ----- URLs -----

  /** `base_url.rstrip("/")`. */
  function NormalizeBase(baseUrl: string): (b: string)
    ensures b == [] || b[|b| - 1] != '/'
    ensures |b| <= |baseUrl| && b == baseUrl[..|b|] && forall i :: |b| <= i < |baseUrl| ==> baseUrl[i] == '/'
  {
    RStrip(baseUrl, '/')
  }

  predicate Absolute(endpoint: string)
  {
    StartsWith(endpoint, "http://") || StartsWith(endpoint, "https://")
  }

  /** `_build_url`: an absolute endpoint as it is, anything else joined to the base with one "/". */
  function BuildUrl(baseUrl: string, endpoint: string): string
  {
    if Absolute(endpoint) then endpoint else baseUrl + "/" + LStrip(endpoint, '/')
  }

  /** An absolute endpoint is kept; a relative one is the base, then exactly one "/", then the
      endpoint without its leading slashes. */
  lemma BuildUrlShape(baseUrl: string, endpoint: string)
    ensures Absolute(endpoint) ==> BuildUrl(baseUrl, endpoint) == endpoint
    ensures !Absolute(endpoint) ==>
              var url := BuildUrl(baseUrl, endpoint);
              var rest := url[|baseUrl| + 1..];
              url[..|baseUrl|] == baseUrl && url[|baseUrl|] == '/'
              && (rest == [] || rest[0] != '/')
              && rest == endpoint[|endpoint| - |rest|..]
              && (forall i :: 0 <= i < |endpoint| - |rest| ==> endpoint[i] == '/')
  {
    if !Absolute(endpoint) {
      var url := BuildUrl(baseUrl, endpoint);
      assert url == baseUrl + "/" + LStrip(endpoint, '/');
      assert url[|baseUrl| + 1..] == LStrip(endpoint, '/');
    }
  }

  /** With an absolute base, building a URL from a built URL changes nothing. */
  lemma BuildUrlIdempotent(baseUrl: string, endpoint: string)
    requires Absolute(baseUrl)
    ensures BuildUrl(baseUrl, BuildUrl(baseUrl, endpoint)) == BuildUrl(baseUrl, endpoint)
  {
    var url := BuildUrl(baseUrl, endpoint);
    if !Absolute(endpoint) {
      var tail := "/" + LStrip(endpoint, '/');
      assert url == baseUrl + tail;
      if StartsWith(baseUrl, "http://") {
        assert url[..7] == baseUrl[..7];
      } else {
        assert url[..8] == baseUrl[..8];
      }
    }
  }

  // ----- the retry policy -----

  /** `raise_for_status` and the exception a failed request raises. */
  function RequestResult(o: Outcome): Result<string, Error>
  {
    match o
    case Answered(status, body) => if status >= 400 then Failure(StatusError(status)) else Success(body)
    case ClientFailure => Failure(ClientError)
    case OtherFailure => Failure(OtherException)
  }

  /** A status error is retried when its status is listed or at least 500; a connection error always;
      anything else never. */
  predicate Retryable(e: Error, retryStatusCodes: seq<int>)
  {
    match e
    case StatusError(status) => status in retryStatusCodes || status >= 500
    case ClientError => true
    case _ => false
  }

  /** `2 ** n` for a natural exponent. */
  function Pow2(n: nat): (p: nat)
    ensures p >= 1
  {
    if n == 0 then 1 else 2 * Pow2(n - 1)
  }

  /** The sleep after the k-th failed attempt (k from 1): `backoff_factor * 2 ** (k - 1)`. */
  function Wait(cfg: Config, k: nat): real
    requires k >= 1
  {
    cfg.backoffFactor * Pow2(k - 1) as real
  }

  /** One pass of the loop body: the hook first when there is one and it is not running (an exception
      from it leaves the flag set and sends no request), then the request. */
  function Attempt(cfg: Config, hookRunning: bool, attempt: nat, send: nat -> Outcome, hook: nat -> Outcome): Step
  {
    if cfg.hasHook && !hookRunning then
      match RequestResult(hook(attempt))
      case Failure(e) => Step(Failure(e), false, true, true)
      case Success(_) => Step(RequestResult(send(attempt)), true, true, false)
    else Step(RequestResult(send(attempt)), true, false, hookRunning)
  }

  /** A run preceded by attempts that sent `sent` requests, waited `waits` and ran the hook `runs` times. */
  function After(sent: nat, waits: seq<real>, runs: nat, rest: Trace): Trace
  {
    Trace(rest.response, sent + rest.sent, waits + rest.waits, runs + rest.hookRuns, rest.hookRunning)
  }

  lemma AfterNothing(rest: Trace)
    ensures After(0, [], 0, rest) == rest
  {
    assert [] + rest.waits == rest.waits;
  }

  lemma AfterAfter(sent: nat, waits: seq<real>, runs: nat, sent2: nat, waits2: seq<real>, runs2: nat, rest: Trace)
    ensures After(sent, waits, runs, After(sent2, waits2, runs2, rest)) == After(sent + sent2, waits + waits2, runs + runs2, rest)
  {
    assert waits + (waits2 + rest.waits) == (waits + waits2) + rest.waits;
  }

  /** `_send_request` from attempt `attempt` on, with the flag `hookRunning`. */
  function Run(cfg: Config, hookRunning: bool, attempt: nat, send: nat -> Outcome, hook: nat -> Outcome): Trace
    decreases if attempt < cfg.retries then cfg.retries - attempt else 0
  {
    if attempt >= cfg.retries then Trace(Raised(RetriesExhausted(cfg.retries)), 0, [], 0, hookRunning)
    else
      var s := Attempt(cfg, hookRunning, attempt, send, hook);
      var sent := if s.sent then 1 else 0;
      var runs := if s.hookRan then 1 else 0;
      match s.result
      case Success(body) => Trace(Body(body), sent, [], runs, s.hookRunning)
      case Failure(e) =>
        if Retryable(e, cfg.retryStatusCodes) && attempt + 1 < cfg.retries then
          After(sent, [Wait(cfg, attempt + 1)], runs, Run(cfg, s.hookRunning, attempt + 1, send, hook))
        else Trace(Raised(e), sent, [], runs, s.hookRunning)
  }

  /** One attempt of the run: an answer ends it, an error is raised unless it is retryable and
      another attempt is allowed, in which case the wait is recorded and the run goes on. */
  lemma RunStep(cfg: Config, hookRunning: bool, a: nat, send: nat -> Outcome, hook: nat -> Outcome)
    requires a < cfg.retries
    ensures var s := Attempt(cfg, hookRunning, a, send, hook);
            var t := Run(cfg, hookRunning, a, send, hook);
            var sent := if s.sent then 1 else 0;
            var runs := if s.hookRan then 1 else 0;
            (s.result.Success? ==> t == Trace(Body(s.result.value), sent, [], runs, s.hookRunning))
            && (s.result.Failure? && (!Retryable(s.result.error, cfg.retryStatusCodes) || a + 1 >= cfg.retries) ==>
                  t == Trace(Raised(s.result.error), sent, [], runs, s.hookRunning))
            && (s.result.Failure? && Retryable(s.result.error, cfg.retryStatusCodes) && a + 1 < cfg.retries ==>
                  t == After(sent, [Wait(cfg, a + 1)], runs, Run(cfg, s.hookRunning, a + 1, send, hook)))
  {
  }

  /** With no attempt allowed, nothing is sent and the "after N attempts" exception is raised. */
  lemma NoAttempts(cfg: Config, hookRunning: bool, send: nat -> Outcome, hook: nat -> Outcome)
    requires cfg.retries <= 0
    ensures Run(cfg, hookRunning, 0, send, hook) == Trace(Raised(RetriesExhausted(cfg.retries)), 0, [], 0, hookRunning)
  {
  }

  /** From attempt `a` on with at least one attempt left: at most the attempts left are made (one
      more than there are waits), at most one request and one hook run per attempt, and the "after N
      attempts" exception is never raised; a retryable error is raised only by the last allowed attempt. */
  lemma {:induction false} RunAttempts(cfg: Config, hookRunning: bool, a: nat, send: nat -> Outcome, hook: nat -> Outcome)
    requires a < cfg.retries
    ensures var t := Run(cfg, hookRunning, a, send, hook);
            a + |t.waits| + 1 <= cfg.retries
            && t.sent <= |t.waits| + 1
            && t.hookRuns <= |t.waits| + 1
            && (t.response.Raised? ==> !t.response.error.RetriesExhausted?)
            && (t.response.Raised? && Retryable(t.response.error, cfg.retryStatusCodes) ==> a + |t.waits| + 1 == cfg.retries)
    decreases cfg.retries - a
  {
    var s := Attempt(cfg, hookRunning, a, send, hook);
    if s.result.Failure? && Retryable(s.result.error, cfg.retryStatusCodes) && a + 1 < cfg.retries {
      RunAttempts(cfg, s.hookRunning, a + 1, send, hook);
    }
  }

  /** The k-th wait is the one after failed attempt `a + k + 1`. */
  predicate WaitsFrom(cfg: Config, a: nat, waits: seq<real>)
  {
    forall k :: 0 <= k < |waits| ==> waits[k] == Wait(cfg, a + k + 1)
  }

  /** Each wait is twice the one before, the first `backoff_factor`. */
  lemma WaitDoubles(cfg: Config, k: nat)
    requires k >= 1
    ensures Wait(cfg, 1) == cfg.backoffFactor
    ensures Wait(cfg, k + 1) == 2.0 * Wait(cfg, k)
  {
    assert Pow2(k) == 2 * Pow2(k - 1);
  }

  /** The waits from attempt `a` on double each time, starting from `backoff_factor * 2 ** a`. */
  lemma {:induction false} RunWaits(cfg: Config, hookRunning: bool, a: nat, send: nat -> Outcome, hook: nat -> Outcome)
    ensures WaitsFrom(cfg, a, Run(cfg, hookRunning, a, send, hook).waits)
    decreases if a < cfg.retries then cfg.retries - a else 0
  {
    if a < cfg.retries {
      var s := Attempt(cfg, hookRunning, a, send, hook);
      if s.result.Failure? && Retryable(s.result.error, cfg.retryStatusCodes) && a + 1 < cfg.retries {
        RunWaits(cfg, s.hookRunning, a + 1, send, hook);
        var rest := Run(cfg, s.hookRunning, a + 1, send, hook).waits;
        var waits := Run(cfg, hookRunning, a, send, hook).waits;
        assert waits == [Wait(cfg, a + 1)] + rest;
        forall k | 0 <= k < |waits| ensures waits[k] == Wait(cfg, a + k + 1) {
          if k > 0 {
            assert waits[k] == rest[k - 1];
            assert a + 1 + (k - 1) + 1 == a + k + 1;
          }
        }
      }
    }
  }

  /** The first attempt decides the retry: with two attempts allowed, a later attempt is made exactly
      when the first one fails with a retryable error; a non-retryable error is raised as it is. */
  lemma FirstFailure(cfg: Config, hookRunning: bool, send: nat -> Outcome, hook: nat -> Outcome)
    requires cfg.retries >= 2
    ensures var s := Attempt(cfg, hookRunning, 0, send, hook);
            var t := Run(cfg, hookRunning, 0, send, hook);
            (|t.waits| >= 1 <==> s.result.Failure? && Retryable(s.result.error, cfg.retryStatusCodes))
            && (s.result.Failure? && !Retryable(s.result.error, cfg.retryStatusCodes) ==> t.response == Raised(s.result.error))
            && (s.result.Success? ==> t.response == Body(s.result.value) && t.waits == [])
  {
  }

  /** While `_is_hook_running` is set the hook is never started, whatever it would do, and the flag
      stays set. */
  lemma {:induction false} HookSkippedWhileRunning(cfg: Config, a: nat, send: nat -> Outcome, hook: nat -> Outcome, other: nat -> Outcome)
    ensures Run(cfg, true, a, send, hook).hookRuns == 0
    ensures Run(cfg, true, a, send, hook).hookRunning
    ensures Run(cfg, true, a, send, hook) == Run(cfg, true, a, send, other)
    decreases if a < cfg.retries then cfg.retries - a else 0
  {
    if a < cfg.retries {
      var s := Attempt(cfg, true, a, send, hook);
      if s.result.Failure? && Retryable(s.result.error, cfg.retryStatusCodes) && a + 1 < cfg.retries {
        HookSkippedWhileRunning(cfg, a + 1, send, hook, other);
      }
    }
  }

  /** A hook that raises leaves `_is_hook_running` set: that attempt sends nothing, the hook is not
      started again on a retry (the retries send requests without it), and the run ends with the flag
      still set. */
  lemma HookFailureSticks(cfg: Config, a: nat, send: nat -> Outcome, hook: nat -> Outcome)
    requires a < cfg.retries && cfg.hasHook && RequestResult(hook(a)).Failure?
    ensures var t := Run(cfg, false, a, send, hook);
            t.hookRuns == 1 && t.hookRunning
            && (Retryable(RequestResult(hook(a)).error, cfg.retryStatusCodes) && a + 1 < cfg.retries ==>
                  t.response == Run(cfg, true, a + 1, send, hook).response && t.sent == Run(cfg, true, a + 1, send, hook).sent)
            && (!Retryable(RequestResult(hook(a)).error, cfg.retryStatusCodes) || a + 1 >= cfg.retries ==>
                  t.response == Raised(RequestResult(hook(a)).error) && t.sent == 0)
  {
    var s := Attempt(cfg, false, a, send, hook);
    assert !s.sent && s.hookRunning;
    if Retryable(s.result.error, cfg.retryStatusCodes) && a + 1 < cfg.retries {
      HookSkippedWhileRunning(cfg, a + 1, send, hook, hook);
    }
  }

  /** `BaseRequester`: the normalised settings, and the hook flag `_send_request` toggles. */
  class Requester {
    const baseUrl: string
    const retries: int
    const backoffFactor: real
    const retryStatusCodes: seq<int>
    const hasHook: bool
    var isHookRunning: bool

    /** `__init__`: the base URL loses its trailing slashes, a missing status list is empty, and the
        hook is not running. */
    constructor(baseUrl: string, retries: int, backoffFactor: real, retryStatusCodes: Option<seq<int>>, hasHook: bool)
      ensures this.baseUrl == NormalizeBase(baseUrl)
      ensures this.retries == retries && this.backoffFactor == backoffFactor && this.hasHook == hasHook
      ensures this.retryStatusCodes == if retryStatusCodes.Some? then retryStatusCodes.value else []
      ensures !isHookRunning
    {
      this.baseUrl := RStrip(baseUrl, '/');
      this.retries := retries;
      this.backoffFactor := backoffFactor;
      this.retryStatusCodes := if retryStatusCodes.Some? then retryStatusCodes.value else [];
      this.hasHook := hasHook;
      isHookRunning := false;
    }

    function Settings(): Config
    {
      Config(retries, backoffFactor, retryStatusCodes, hasHook)
    }

    /** The `try` block of one attempt: the hook when it is due, then the request. */
    method Try(attempt: nat, send: nat -> Outcome, hook: nat -> Outcome) returns (result: Result<string, Error>, sentOne: bool, hookRan: bool)
      modifies this
      ensures Step(result, sentOne, hookRan, isHookRunning) == Attempt(Settings(), old(isHookRunning), attempt, send, hook)
    {
      sentOne, hookRan := false, false;
      if hasHook && !isHookRunning {
        isHookRunning := true;
        hookRan := true;
        result := RequestResult(hook(attempt));
        if result.Failure? {
          return;
        }
        isHookRunning := false;
      }
      sentOne := true;
      result := RequestResult(send(attempt));
    }

    /** `_send_request`: the URL it requests, and the run of its retry loop. */
    method SendRequest(endpoint: string, send: nat -> Outcome, hook: nat -> Outcome)
      returns (url: string, response: Response, sent: nat, waits: seq<real>, hookRuns: nat)
      modifies this
      ensures url == BuildUrl(baseUrl, endpoint)
      ensures Trace(response, sent, waits, hookRuns, isHookRunning) == Run(Settings(), old(isHookRunning), 0, send, hook)
    {
      url := BuildUrl(baseUrl, endpoint);
      ghost var whole := Run(Settings(), isHookRunning, 0, send, hook);
      sent, waits, hookRuns := 0, [], 0;
      AfterNothing(whole);
      var attempt: nat := 0;
      while attempt < retries
        invariant whole == After(sent, waits, hookRuns, Run(Settings(), isHookRunning, attempt, send, hook))
        decreases retries - attempt
      {
        ghost var flag := isHookRunning;
        var result, sentOne, hookRan := Try(attempt, send, hook);
        RunStep(Settings(), flag, attempt, send, hook);
        ghost var sent1, runs1 := if sentOne then 1 else 0, if hookRan then 1 else 0;
        if result.Failure? && Retryable(result.error, retryStatusCodes) && attempt + 1 < retries {
          AfterAfter(sent, waits, hookRuns, sent1, [Wait(Settings(), attempt + 1)], runs1, Run(Settings(), isHookRunning, attempt + 1, send, hook));
        }
        sent := sent + if sentOne then 1 else 0;
        hookRuns := hookRuns + if hookRan then 1 else 0;
        if result.Success? {
          response := Body(result.value);
          return;
        }
        if !Retryable(result.error, retryStatusCodes) {
          response := Raised(result.error);
          return;
        }
        attempt := attempt + 1;
        if attempt < retries {
          waits := waits + [Wait(Settings(), attempt)];
        } else {
          response := Raised(result.error);
          return;
        }
      }
      response := Raised(RetriesExhausted(retries));
    }
  }
}
