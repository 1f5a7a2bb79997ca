/**
 * GraphBaseService: every Graph request goes through RequestBaseAsync, which
 * retries a request that failed with HTTP 429 (section 4 of RFC 6585) or a
 * status in 500..600, waiting as long as the Retry-After header says in its
 * delay-seconds form (section 10.2.3 of RFC 9110) or 3000 ms otherwise, until
 * the retry budget is spent.
 *
 * The network is a sequence of attempts: the k-th try of one request gets the
 * k-th attempt, an answer or an exception. The recursion on maxRetry - 1 is a
 * loop; waiting is recorded as the list of delays and every request sent is
 * recorded.
 */
module GraphBaseService {
  import opened Wrappers
  import opened DotNetText

  /** The parts of a failed request's HTTP response the service reads. */
  datatype ErrorResponse = ErrorResponse(statusCode: Option<int>, headers: seq<(string, string)>)

  /** A WebException; its Response is null when no response arrived (time-out, name resolution, ...). */
  datatype WebFailure = WebFailure(response: Option<ErrorResponse>)

  /** What one try of a request yields. */
  datatype Attempt<+R> =
    | Answered(response: R)
    | WebFailed(failure: WebFailure)
    | OtherFailed(description: string)

  /** How RequestBaseAsync ends. */
  datatype Outcome<+R> =
    | Returned(response: R)
    | Rethrown(failure: WebFailure, log: string)
    | Propagated(description: string)
    | DelayOutOfRange(delay: int)
    | NullReference

  /** One request as sent: the same four values on every retry. */
  datatype Request = Request(url: string, verb: string, postData: string, contentType: string)

  /** A run of one request: how it ended, the delays waited, the number of tries. */
  datatype Run<+R> = Run(outcome: Outcome<R>, delays: seq<int>, tries: nat)

  const DefaultMaxRetry: int := 8
  const DefaultDelayMsec: int := 3000
  const TooManyRequests: int := 429

  /** The values, in order, of the headers whose name equals name ignoring case. */
  function HeaderValues(headers: seq<(string, string)>, name: string): (vs: seq<string>)
    ensures |vs| <= |headers|
  {
    if |headers| == 0 then []
    else (if EqualsIgnoreCase(headers[0].0, name) then [headers[0].1] else []) + HeaderValues(headers[1..], name)
  }

  /**
   * WebHeaderCollection[name]: the values of every header of that name
   * (ignoring case), in order, joined by ','; null when there is none.
   */
  function Header(headers: seq<(string, string)>, name: string): Option<string> {
    if |headers| == 0 then None
    else
      var rest := Header(headers[1..], name);
      if !EqualsIgnoreCase(headers[0].0, name) then rest
      else if rest.None? then Some(headers[0].1)
      else Some(headers[0].1 + [','] + rest.value)
  }

  /** The header is the join of its values, and null when it has none. */
  lemma {:induction false} HeaderJoins(headers: seq<(string, string)>, name: string)
    ensures var vs := HeaderValues(headers, name);
      Header(headers, name) == if |vs| == 0 then None else Some(Join(vs, ','))
  {
    if |headers| > 0 {
      HeaderJoins(headers[1..], name);
      var vs := HeaderValues(headers, name);
      if EqualsIgnoreCase(headers[0].0, name) {
        assert vs[0] == headers[0].1 && vs[1..] == HeaderValues(headers[1..], name);
      } else {
        assert vs == [] + HeaderValues(headers[1..], name) == HeaderValues(headers[1..], name);
      }
    }
  }

  /** The values are exactly those of the headers with that name, ignoring case. */
  lemma {:induction false} HeaderValuesMeaning(headers: seq<(string, string)>, name: string)
    ensures forall v :: v in HeaderValues(headers, name) <==>
      exists i :: 0 <= i < |headers| && EqualsIgnoreCase(headers[i].0, name) && headers[i].1 == v
  {
    if |headers| > 0 {
      HeaderValuesMeaning(headers[1..], name);
      forall v | v in HeaderValues(headers, name)
        ensures exists i :: 0 <= i < |headers| && EqualsIgnoreCase(headers[i].0, name) && headers[i].1 == v
      {
        if !(EqualsIgnoreCase(headers[0].0, name) && headers[0].1 == v) {
          assert v in HeaderValues(headers[1..], name);
          var i :| 0 <= i < |headers[1..]| && EqualsIgnoreCase(headers[1..][i].0, name) && headers[1..][i].1 == v;
          assert headers[i + 1] == headers[1..][i];
        }
      }
      forall i | 0 <= i < |headers| && EqualsIgnoreCase(headers[i].0, name)
        ensures headers[i].1 in HeaderValues(headers, name)
      {
        if i > 0 {
          assert headers[1..][i - 1] == headers[i];
        }
      }
    }
  }

  /** The values of the headers with that name, when only one header has it, is that header's value alone. */
  lemma {:induction false} HeaderValuesSingle(headers: seq<(string, string)>, name: string, k: nat)
    requires k < |headers| && EqualsIgnoreCase(headers[k].0, name)
    requires forall j :: 0 <= j < |headers| && j != k ==> !EqualsIgnoreCase(headers[j].0, name)
    ensures HeaderValues(headers, name) == [headers[k].1]
  {
    if k == 0 {
      HeaderValuesNone(headers[1..], name);
    } else {
      forall j | 0 <= j < |headers[1..]| && j != k - 1
        ensures !EqualsIgnoreCase(headers[1..][j].0, name)
      {
        assert headers[1..][j] == headers[j + 1];
      }
      HeaderValuesSingle(headers[1..], name, k - 1);
    }
  }

  /** No header with that name, no values. */
  lemma {:induction false} HeaderValuesNone(headers: seq<(string, string)>, name: string)
    requires forall j :: 0 <= j < |headers| ==> !EqualsIgnoreCase(headers[j].0, name)
    ensures HeaderValues(headers, name) == []
  {
    if |headers| > 0 {
      HeaderValuesNone(headers[1..], name);
    }
  }

  /**
   * A header is found exactly when some header has that name, ignoring case;
   * with a single such header its value is taken as it is, and with several
   * every value appears in the joined text.
   */
  lemma HeaderFound(headers: seq<(string, string)>, name: string)
    ensures Header(headers, name).Some? <==> exists i :: 0 <= i < |headers| && EqualsIgnoreCase(headers[i].0, name)
    ensures forall k :: 0 <= k < |headers| && EqualsIgnoreCase(headers[k].0, name)
                        && (forall j :: 0 <= j < |headers| && j != k ==> !EqualsIgnoreCase(headers[j].0, name))
                        ==> Header(headers, name) == Some(headers[k].1)
    ensures Header(headers, name).Some? ==>
      |HeaderValues(headers, name)| > 0 && Header(headers, name).value == Join(HeaderValues(headers, name), ',')
  {
    HeaderJoins(headers, name);
    HeaderValuesMeaning(headers, name);
    var vs := HeaderValues(headers, name);
    if |vs| > 0 {
      assert vs[0] in vs;
    }
    if exists i :: 0 <= i < |headers| && EqualsIgnoreCase(headers[i].0, name) {
      var i :| 0 <= i < |headers| && EqualsIgnoreCase(headers[i].0, name);
      assert headers[i].1 in vs;
    }
    forall k | 0 <= k < |headers| && EqualsIgnoreCase(headers[k].0, name)
                && (forall j :: 0 <= j < |headers| && j != k ==> !EqualsIgnoreCase(headers[j].0, name))
      ensures Header(headers, name) == Some(headers[k].1)
    {
      HeaderValuesSingle(headers, name, k);
    }
  }

  /**
   * Two or more Retry-After headers read as one comma-joined value, which is
   * not a number, so the default delay applies.
   */
  lemma RepeatedRetryAfter(headers: seq<(string, string)>)
    requires |HeaderValues(headers, "Retry-After")| >= 2
    ensures Header(headers, "Retry-After").Some? && ',' in Header(headers, "Retry-After").value
    ensures GetDelayMsec(Header(headers, "Retry-After")) == DefaultDelayMsec
  {
    HeaderJoins(headers, "Retry-After");
    var vs := HeaderValues(headers, "Retry-After");
    var joined := Join(vs, ',');
    assert joined == vs[0] + [','] + Join(vs[1..], ',');
    assert joined[|vs[0]|] == ',';
    TryParseRejects(joined, |vs[0]|);
  }

  /** (ex.Response as HttpWebResponse)?.StatusCode */
  function StatusOf(f: WebFailure): Option<int> {
    if f.response.Some? then f.response.value.statusCode else None
  }

  /** HTTP 429, or a status from 500 to 600 inclusive. */
  predicate IsRetryable(status: Option<int>) {
    status == Some(TooManyRequests) || (status.Some? && 500 <= status.value <= 600)
  }

  /** GetDelayMsec: Retry-After seconds times 1000 (unchecked Int32 product) when it parses, else 3000. */
  function GetDelayMsec(retryAfter: Option<string>): int {
    if retryAfter.Some? && TryParseInt32(retryAfter.value).Some? then
      Wrap32(TryParseInt32(retryAfter.value).value * 1000)
    else
      DefaultDelayMsec
  }

  /** The Retry-After header of a failure that has a response. */
  function RetryAfter(f: WebFailure): Option<string>
    requires f.response.Some?
  {
    Header(f.response.value.headers, "Retry-After")
  }

  /** The header values the error log reports; a missing response reports none. */
  function HeaderOrEmpty(response: Option<ErrorResponse>, name: string): string {
    if response.Some? then Str(Header(response.value.headers, name)) else ""
  }

  /** The error line logged before rethrowing. */
  function LogLine(url: string, verb: string, response: Option<ErrorResponse>): string {
    "Graph request error. Url: '" + url + "', method '" + verb + "', "
    + "request-id header: '" + HeaderOrEmpty(response, "request-id")
    + "', timestamp header: '" + HeaderOrEmpty(response, "timestamp")
    + "', diagnostics header: '" + HeaderOrEmpty(response, "x-ms-ags-diagnostic") + "'"
  }

  /**
   * The end of the catch block as written: it reads ex.Response.Headers, which
   * throws a NullReferenceException when the exception carries no response.
   */
  function GiveUpAsWritten<R>(url: string, verb: string, f: WebFailure): Outcome<R> {
    if f.response.None? then NullReference else Rethrown(f, LogLine(url, verb, f.response))
  }

  /** The end of the catch block as intended: log what headers there are and rethrow the original exception. */
  function GiveUp<R>(url: string, verb: string, f: WebFailure): (o: Outcome<R>)
    ensures o.Rethrown? && o.failure == f
    ensures f.response.Some? ==> o == GiveUpAsWritten(url, verb, f)
  {
    Rethrown(f, LogLine(url, verb, f.response))
  }

  /** As written, a failure without a response ends in a NullReferenceException, not in the WebException. */
  lemma {:induction false} NoResponseAsWritten<R>(url: string, verb: string)
    ensures GiveUpAsWritten<R>(url, verb, WebFailure(None)) == NullReference
    ensures GiveUp<R>(url, verb, WebFailure(None)) != GiveUpAsWritten<R>(url, verb, WebFailure(None))
  {
  }

  /** The retries a budget allows. */
  function Budget(maxRetry: int): nat {
    if maxRetry > 0 then maxRetry else 0
  }

  /** The k-th try is retried: budget is left and it failed in a way that is retried. */
  predicate Retries<R>(delayOf: Option<string> -> int, attempts: seq<Attempt<R>>, budget: int, k: nat)
    requires k < |attempts|
  {
    budget > 0 && RetriedFailure(delayOf, attempts[k])
  }

  /** A try that failed with a retryable status and a delay Task.Delay accepts. */
  predicate RetriedFailure<R>(delayOf: Option<string> -> int, a: Attempt<R>) {
    && a.WebFailed?
    && IsRetryable(StatusOf(a.failure))
    && delayOf(RetryAfter(a.failure)) >= 0
  }

  /** How a try that is not retried ends the request. */
  function Stop<R>(url: string, verb: string, delayOf: Option<string> -> int, a: Attempt<R>, budget: int): Outcome<R> {
    match a
    case Answered(r) => Returned(r)
    case OtherFailed(e) => Propagated(e)
    case WebFailed(f) =>
      if budget > 0 && IsRetryable(StatusOf(f)) then DelayOutOfRange(delayOf(RetryAfter(f)))
      else GiveUp(url, verb, f)
  }

  /**
   * The reference definition of RequestBaseAsync, from the k-th attempt on,
   * with `budget` retries left; delayOf is the rule that turns a Retry-After
   * header into milliseconds (GetDelayMsec in the service).
   */
  function RunFrom<R>(url: string, verb: string, delayOf: Option<string> -> int, attempts: seq<Attempt<R>>, budget: int, k: nat): (run: Run<R>)
    requires k + Budget(budget) < |attempts|
    ensures 1 <= run.tries <= Budget(budget) + 1
    ensures |run.delays| == run.tries - 1
    decreases |attempts| - k
  {
    if Retries(delayOf, attempts, budget, k) then
      var rest := RunFrom(url, verb, delayOf, attempts, budget - 1, k + 1);
      Run(rest.outcome, [delayOf(RetryAfter(attempts[k].failure))] + rest.delays, rest.tries + 1)
    else
      Run(Stop(url, verb, delayOf, attempts[k], budget), [], 1)
  }

  /**
   * The retry loop of RequestBaseAsync for a given rule delayOf that turns the
   * Retry-After header into milliseconds: tries the request; on a retryable
   * failure with budget left, waits and tries again with one retry less;
   * otherwise ends with the answer or the exception. A negative delay makes
   * Task.Delay throw.
   */
  method RequestLoop<R>(url: string, verb: string, postData: string, contentType: string, maxRetry: int,
                        delayOf: Option<string> -> int, attempts: seq<Attempt<R>>)
    returns (outcome: Outcome<R>, delays: seq<int>, sent: seq<Request>)
    requires Budget(maxRetry) < |attempts|
    ensures RunFrom(url, verb, delayOf, attempts, maxRetry, 0) == Run(outcome, delays, |sent|)
    ensures forall i :: 0 <= i < |sent| ==> sent[i] == Request(url, verb, postData, contentType)
  {
    var budget := maxRetry;
    var k := 0;
    delays := [];
    sent := [];
    while true
      invariant budget == maxRetry - k && k <= Budget(maxRetry)
      invariant |sent| == k && |delays| == k
      invariant forall i :: 0 <= i < k ==> sent[i] == Request(url, verb, postData, contentType)
      invariant var rest := RunFrom(url, verb, delayOf, attempts, budget, k);
        RunFrom(url, verb, delayOf, attempts, maxRetry, 0) == Run(rest.outcome, delays + rest.delays, k + rest.tries)
      decreases |attempts| - k
    {
      sent := sent + [Request(url, verb, postData, contentType)];
      var retry, stopped, retryAfter := TryOnce(url, verb, delayOf, attempts, maxRetry, budget, k, delays);
      if !retry {
        outcome := stopped;
        return;
      }
      delays := delays + [retryAfter];
      budget := budget - 1;
      k := k + 1;
    }
  }

  /**
   * One try of the loop with the run so far: a try that is not retried ends
   * the run with its outcome, and a retried one adds its delay and leaves the
   * rest of the run to the next attempt.
   */
  method TryOnce<R>(url: string, verb: string, delayOf: Option<string> -> int, attempts: seq<Attempt<R>>,
                    maxRetry: int, budget: int, k: nat, delays: seq<int>)
    returns (retry: bool, outcome: Outcome<R>, retryAfter: int)
    requires Budget(maxRetry) < |attempts| && k + Budget(budget) < |attempts|
    requires var rest := RunFrom(url, verb, delayOf, attempts, budget, k);
      RunFrom(url, verb, delayOf, attempts, maxRetry, 0) == Run(rest.outcome, delays + rest.delays, k + rest.tries)
    ensures retry ==> budget > 0
    ensures !retry ==> RunFrom(url, verb, delayOf, attempts, maxRetry, 0) == Run(outcome, delays, k + 1)
    ensures retry ==> var rest := RunFrom(url, verb, delayOf, attempts, budget - 1, k + 1);
      RunFrom(url, verb, delayOf, attempts, maxRetry, 0) == Run(rest.outcome, (delays + [retryAfter]) + rest.delays, k + 1 + rest.tries)
  {
    retry, outcome, retryAfter := HandleAttempt(url, verb, delayOf, attempts[k], budget);
    if retry {
      RetryStep(url, verb, delayOf, attempts, maxRetry, budget, k, delays);
    } else {
      StopStep(url, verb, delayOf, attempts, maxRetry, budget, k, delays);
    }
  }

  /**
   * One try of the loop: an answer is returned, a non-web exception
   * propagates, and a web failure is retried (after retryAfter milliseconds)
   * when budget is left, its status is retryable and the delay is not
   * negative; otherwise the request ends as Stop says.
   */
  method HandleAttempt<R>(url: string, verb: string, delayOf: Option<string> -> int, a: Attempt<R>, budget: int)
    returns (retry: bool, outcome: Outcome<R>, retryAfter: int)
    ensures retry <==> budget > 0 && RetriedFailure(delayOf, a)
    ensures retry ==> retryAfter == delayOf(RetryAfter(a.failure)) && retryAfter >= 0
    ensures !retry ==> outcome == Stop(url, verb, delayOf, a, budget)
  {
    retry, retryAfter := false, 0;
    match a
    case Answered(r) =>
      outcome := Returned(r);
    case OtherFailed(e) =>
      outcome := Propagated(e);
    case WebFailed(f) =>
      var statusCode := StatusOf(f);
      if budget > 0 && IsRetryable(statusCode) {
        retryAfter := delayOf(RetryAfter(f));
        if retryAfter < 0 {
          outcome := DelayOutOfRange(retryAfter);
        } else {
          // the loop goes on; this outcome is never used
          retry, outcome := true, NullReference;
        }
      } else {
        outcome := GiveUp(url, verb, f);
      }
  }


  /** A try that is not retried ends the run with its outcome. */
  lemma StopStep<R>(url: string, verb: string, delayOf: Option<string> -> int, attempts: seq<Attempt<R>>, maxRetry: int, budget: int, k: nat, delays: seq<int>)
    requires Budget(maxRetry) < |attempts| && k + Budget(budget) < |attempts|
    requires !Retries(delayOf, attempts, budget, k)
    requires var rest := RunFrom(url, verb, delayOf, attempts, budget, k);
      RunFrom(url, verb, delayOf, attempts, maxRetry, 0) == Run(rest.outcome, delays + rest.delays, k + rest.tries)
    ensures RunFrom(url, verb, delayOf, attempts, maxRetry, 0)
      == Run(Stop(url, verb, delayOf, attempts[k], budget), delays, k + 1)
  {
    assert delays + [] == delays;
  }

  /** A retried try adds its delay and leaves the rest of the run to the next attempt. */
  lemma RetryStep<R>(url: string, verb: string, delayOf: Option<string> -> int, attempts: seq<Attempt<R>>, maxRetry: int, budget: int, k: nat, delays: seq<int>)
    requires Budget(maxRetry) < |attempts| && k + Budget(budget) < |attempts|
    requires Retries(delayOf, attempts, budget, k)
    requires var rest := RunFrom(url, verb, delayOf, attempts, budget, k);
      RunFrom(url, verb, delayOf, attempts, maxRetry, 0) == Run(rest.outcome, delays + rest.delays, k + rest.tries)
    ensures var rest := RunFrom(url, verb, delayOf, attempts, budget - 1, k + 1);
      RunFrom(url, verb, delayOf, attempts, maxRetry, 0)
        == Run(rest.outcome, (delays + [delayOf(RetryAfter(attempts[k].failure))]) + rest.delays, k + 1 + rest.tries)
  {
    var rest := RunFrom(url, verb, delayOf, attempts, budget - 1, k + 1);
    var d := delayOf(RetryAfter(attempts[k].failure));
    assert (delays + [d]) + rest.delays == delays + ([d] + rest.delays);
  }

  /**
   * RequestBaseAsync: the retry loop with GetDelayMsec as the delay rule (its
   * delay is never -1, the infinite wait: see DelayNeverInfinite).
   */
  method RequestBaseAsync<R>(url: string, verb: string, postData: string, contentType: string, maxRetry: int,
                             attempts: seq<Attempt<R>>)
    returns (outcome: Outcome<R>, delays: seq<int>, sent: seq<Request>)
    requires Budget(maxRetry) < |attempts|
    ensures RunFrom(url, verb, GetDelayMsec, attempts, maxRetry, 0) == Run(outcome, delays, |sent|)
    ensures forall i :: 0 <= i < |sent| ==> sent[i] == Request(url, verb, postData, contentType)
  {
    outcome, delays, sent := RequestLoop(url, verb, postData, contentType, maxRetry, GetDelayMsec, attempts);
  }

  /** Get: a GET with no body, no content type and the default budget of 8 retries, so at most 9 tries. */
  method Get<R>(url: string, attempts: seq<Attempt<R>>)
    returns (outcome: Outcome<R>, delays: seq<int>, sent: seq<Request>)
    requires Budget(DefaultMaxRetry) < |attempts|
    ensures RunFrom(url, "GET", GetDelayMsec, attempts, DefaultMaxRetry, 0) == Run(outcome, delays, |sent|)
    ensures 1 <= |sent| <= 9
    ensures forall i :: 0 <= i < |sent| ==> sent[i] == Request(url, "GET", "", "")
  {
    outcome, delays, sent := RequestBaseAsync(url, "GET", "", "", DefaultMaxRetry, attempts);
  }

  /**
   * Every try but the last failed with a retryable status while budget was
   * left, and was followed by the delay its Retry-After header gives; the last
   * try is not retried and decides the outcome.
   */
  lemma RunShape<R>(url: string, verb: string, delayOf: Option<string> -> int, attempts: seq<Attempt<R>>, budget: int, k: nat)
    requires k + Budget(budget) < |attempts|
    ensures var run := RunFrom(url, verb, delayOf, attempts, budget, k); var last := k + run.tries - 1;
      && (forall i :: k <= i < last ==>
            && RetriedFailure(delayOf, attempts[i])
            && i - k < budget
            && run.delays[i - k] == delayOf(RetryAfter(attempts[i].failure)))
      && !Retries(delayOf, attempts, budget - (last - k), last)
      && run.outcome == Stop(url, verb, delayOf, attempts[last], budget - (last - k))
  {
    RunRetried(url, verb, delayOf, attempts, budget, k);
    RunLast(url, verb, delayOf, attempts, budget, k);
  }

  /** Every try before the last was a retried failure, made while budget was left, and was followed by its delay. */
  lemma {:induction false} RunRetried<R>(url: string, verb: string, delayOf: Option<string> -> int, attempts: seq<Attempt<R>>, budget: int, k: nat)
    requires k + Budget(budget) < |attempts|
    ensures var run := RunFrom(url, verb, delayOf, attempts, budget, k);
      forall i :: k <= i < k + run.tries - 1 ==>
        && RetriedFailure(delayOf, attempts[i])
        && i - k < budget
        && run.delays[i - k] == delayOf(RetryAfter(attempts[i].failure))
    decreases |attempts| - k
  {
    if Retries(delayOf, attempts, budget, k) {
      var run := RunFrom(url, verb, delayOf, attempts, budget, k);
      var rest := RunFrom(url, verb, delayOf, attempts, budget - 1, k + 1);
      RunRetried(url, verb, delayOf, attempts, budget - 1, k + 1);
      var d := delayOf(RetryAfter(attempts[k].failure));
      assert run == Run(rest.outcome, [d] + rest.delays, rest.tries + 1);
      forall i | k <= i < k + run.tries - 1
        ensures && RetriedFailure(delayOf, attempts[i])
                && i - k < budget
                && run.delays[i - k] == delayOf(RetryAfter(attempts[i].failure))
      {
        if i > k {
          assert run.delays[i - k] == rest.delays[i - (k + 1)];
        }
      }
    }
  }

  /** The last try is one that is not retried, and it decides the outcome. */
  lemma {:induction false} RunLast<R>(url: string, verb: string, delayOf: Option<string> -> int, attempts: seq<Attempt<R>>, budget: int, k: nat)
    requires k + Budget(budget) < |attempts|
    ensures var run := RunFrom(url, verb, delayOf, attempts, budget, k); var last := k + run.tries - 1;
      && !Retries(delayOf, attempts, budget - (last - k), last)
      && run.outcome == Stop(url, verb, delayOf, attempts[last], budget - (last - k))
    decreases |attempts| - k
  {
    if Retries(delayOf, attempts, budget, k) {
      var run := RunFrom(url, verb, delayOf, attempts, budget, k);
      var rest := RunFrom(url, verb, delayOf, attempts, budget - 1, k + 1);
      RunLast(url, verb, delayOf, attempts, budget - 1, k + 1);
      assert run == Run(rest.outcome, [delayOf(RetryAfter(attempts[k].failure))] + rest.delays, rest.tries + 1);
      var last := k + run.tries - 1;
      var left := budget - (last - k);
      assert left == budget - 1 - (last - (k + 1)) && last == k + 1 + rest.tries - 1;
      assert !Retries(delayOf, attempts, left, last);
      assert run.outcome == rest.outcome == Stop(url, verb, delayOf, attempts[last], left);
    } else {
      assert RunFrom(url, verb, delayOf, attempts, budget, k) == Run(Stop(url, verb, delayOf, attempts[k], budget), [], 1);
    }
  }

  /**
   * The last try decides: an answer is returned unchanged, any other
   * exception propagates, a WebException that may not be retried is rethrown
   * unchanged, and a retryable one with a negative delay ends in Task.Delay's
   * exception. A NullReferenceException never arises.
   */
  lemma StopMeaning<R>(url: string, verb: string, delayOf: Option<string> -> int, a: Attempt<R>, budget: int)
    ensures var o := Stop(url, verb, delayOf, a, budget);
      && (o.Returned? <==> a.Answered?) && (o.Returned? ==> o.response == a.response)
      && (o.Propagated? <==> a.OtherFailed?) && (o.Propagated? ==> o.description == a.description)
      && (o.Rethrown? <==> a.WebFailed? && !(budget > 0 && IsRetryable(StatusOf(a.failure))))
      && (o.Rethrown? ==> o.failure == a.failure)
      && (o.DelayOutOfRange? <==> a.WebFailed? && budget > 0 && IsRetryable(StatusOf(a.failure)))
      && !o.NullReference?
  {
  }

  /** A failure whose exception carries no response is not retried. */
  lemma NoResponseNotRetried<R>(url: string, verb: string, delayOf: Option<string> -> int, attempts: seq<Attempt<R>>, budget: int)
    requires Budget(budget) < |attempts|
    requires attempts[0] == WebFailed(WebFailure(None))
    ensures RunFrom(url, verb, delayOf, attempts, budget, 0) == Run(Rethrown(WebFailure(None), LogLine(url, verb, None)), [], 1)
  {
  }

  /**
   * When every try fails with a retryable status and a usable delay, the
   * budget is spent: budget + 1 tries, and the last failure is rethrown.
   */
  lemma {:induction false} BudgetSpent<R>(url: string, verb: string, delayOf: Option<string> -> int, attempts: seq<Attempt<R>>, budget: int, k: nat)
    requires k + Budget(budget) < |attempts|
    requires forall i :: k <= i < |attempts| ==>
      && attempts[i].WebFailed?
      && IsRetryable(StatusOf(attempts[i].failure))
      && delayOf(RetryAfter(attempts[i].failure)) >= 0
    ensures var run := RunFrom(url, verb, delayOf, attempts, budget, k);
      && run.tries == Budget(budget) + 1
      && run.outcome.Rethrown?
      && run.outcome.failure == attempts[k + Budget(budget)].failure
    decreases |attempts| - k
  {
    if budget > 0 {
      BudgetSpent(url, verb, delayOf, attempts, budget - 1, k + 1);
    }
  }

  /** A Retry-After of n seconds, written as an Int32 with n * 1000 in range, waits n * 1000 ms. */
  lemma DelayFromSeconds(n: int)
    requires Int32Min <= n * 1000 <= Int32Max
    ensures GetDelayMsec(Some(Int32ToString(n))) == n * 1000
  {
    Int32RoundTrip(n);
  }

  /** No Retry-After header: the default of 3000 ms. */
  lemma DelayWithoutHeader()
    ensures GetDelayMsec(None) == DefaultDelayMsec
  {
  }

  lemma {:induction false} LetterNotInteger(s: string, i: int)
    requires 0 <= i < |s| && ('A' <= s[i] <= 'Z' || 'a' <= s[i] <= 'z')
    ensures TryParseInt32(s) == None
  {
    var a := TrimStartWhere(s, IsNumberWhite);
    var t := TrimEndWhere(a, IsNumberWhite);
    var j := i - (|s| - |a|);
    assert 0 <= j by {
      assert !IsNumberWhite(s[i]);
    }
    assert a[j] == s[i];
    assert j < |t| by {
      assert !IsNumberWhite(a[j]);
    }
    assert t[j] == s[i];
    if |t| > 0 {
      var digits := if t[0] == '-' || t[0] == '+' then t[1..] else t;
      if t[0] == '-' || t[0] == '+' {
        assert j > 0 && digits[j - 1] == s[i];
      } else {
        assert digits[j] == s[i];
      }
    }
  }

  /**
   * A Retry-After that holds a letter, as the HTTP-date form always does
   * ("Wed, 21 Oct 2015 07:28:00 GMT"), falls back to 3000 ms.
   */
  lemma DelayFromHttpDate(value: string, i: int)
    requires 0 <= i < |value| && ('A' <= value[i] <= 'Z' || 'a' <= value[i] <= 'z')
    ensures GetDelayMsec(Some(value)) == DefaultDelayMsec
  {
    LetterNotInteger(value, i);
  }

  lemma EvenWrap(x: int)
    requires x % 2 == 0
    ensures Wrap32(x) % 2 == 0
  {
    var y := x - Int32Min;
    var q := y / 0x1_0000_0000;
    var r := y % 0x1_0000_0000;
    assert y == q * 0x1_0000_0000 + r;
    assert r + Int32Min == 2 * (x / 2 - q * 0x8000_0000);
  }

  /** The delay is always even, so it is never -1, which Task.Delay would take as "wait forever". */
  lemma DelayNeverInfinite(retryAfter: Option<string>)
    ensures GetDelayMsec(retryAfter) % 2 == 0
    ensures GetDelayMsec(retryAfter) != -1
  {
    if retryAfter.Some? && TryParseInt32(retryAfter.value).Some? {
      var n := TryParseInt32(retryAfter.value).value;
      assert n * 1000 == 2 * (n * 500);
      EvenWrap(n * 1000);
    }
  }
}
