/**
 * Forwarding of one delivery to the sink (`postMessage` in the adapter).
 * The three foreign steps -- creating the CloudEvent request, converting
 * the delivery into it and sending it with retries -- are not modelled;
 * their outcomes are inputs.
 */
module Forwarding {
  import opened Wrappers
  import opened AdapterTypes

  /** What `SendWithRetries` ends with: a response, or the last transport error. */
  datatype SendOutcome = Response(statusCode: int) | TransportFailure(err: Error)

  /** The outcomes the foreign calls produce for one delivery. */
  datatype Outcomes = Outcomes(
    request: Option<Error>,     // NewCloudEventRequest
    conversion: Option<Error>,  // ConvertMessageToHTTPRequest
    send: SendOutcome,          // SendWithRetries
    reporter: Option<Error>)    // ReportEventCount

  /** The fallible foreign steps, in the order postMessage runs them. */
  datatype Step = NewCloudEventRequest | ConvertMessageToHTTPRequest | SendWithRetries

  const AllSteps: seq<Step> := [NewCloudEventRequest, ConvertMessageToHTTPRequest, SendWithRetries]

  datatype ReportArgs = ReportArgs(namespace: string, name: string, resourceGroup: string)

  /** One call of `ReportEventCount`. */
  datatype Report = Report(args: ReportArgs, statusCode: int)

  /**
   * The returned error (`None` for Go's nil), the foreign steps invoked, in
   * order, and the event-count report made, if any.
   */
  datatype PostResult = PostResult(err: Option<Error>, steps: seq<Step>, report: Option<Report>)

  /**
   * Go's `/` on ints: the quotient truncated toward zero (Dafny's `/` is
   * Euclidean, which differs for a negative dividend).
   */
  function GoQuotient(a: int, b: int): (q: int)
    requires b > 0
    ensures a >= 0 ==> q * b <= a < q * b + b
    ensures a < 0 ==> q * b - b < a <= q * b
  {
    if a >= 0 then a / b else -((-a) / b)
  }

  lemma {:induction false} StatusClassIsRange(code: int)
    ensures GoQuotient(code, 100) == 2 <==> 200 <= code < 300
  {
    var q := GoQuotient(code, 100);
    if q == 2 {
      assert 0 <= code;
    }
  }

  /** A status code `postMessage` accepts: the 2xx class. */
  predicate IsSuccessStatus(code: int) {
    200 <= code < 300
  }

  /** Every step succeeds and the sink answers with a 2xx status. */
  predicate Forwarded(o: Outcomes) {
    o.request.None? && o.conversion.None? && o.send.Response? && IsSuccessStatus(o.send.statusCode)
  }

  /** Whether step `k` of AllSteps fails under `o` (sending fails also on a non-2xx answer). */
  predicate StepFails(o: Outcomes, k: nat)
    requires k < 3
  {
    if k == 0 then o.request.Some?
    else if k == 1 then o.conversion.Some?
    else !o.send.Response? || !IsSuccessStatus(o.send.statusCode)
  }

  /** The error postMessage returns when step `k` fails. */
  function StepError(o: Outcomes, k: nat): Error
    requires k < 3 && StepFails(o, k)
  {
    if k == 0 then o.request.value
    else if k == 1 then o.conversion.value
    else if o.send.TransportFailure? then o.send.err
    else UnexpectedStatus(o.send.statusCode)
  }

  function ReportArgsOf(cfg: Config): ReportArgs {
    ReportArgs(cfg.namespace, cfg.name, ResourceGroup)
  }

  /**
   * Forward one delivery. The steps run in order and the first failing one
   * ends the attempt with its error; only a complete, 2xx exchange reports
   * the event count, once, with the response status, and whatever the
   * reporter answers, the result is success.
   */
  function PostMessage(cfg: Config, d: Delivery, o: Outcomes): (r: PostResult)
    ensures r.err.None? <==> Forwarded(o)
    ensures r.err.None? ==> r.steps == AllSteps
    ensures !r.err.None? ==>
      var k := |r.steps| - 1;
      && 0 <= k < 3
      && r.steps == AllSteps[..k + 1]
      && StepFails(o, k)
      && (forall j :: 0 <= j < k ==> !StepFails(o, j))
      && r.err == Some(StepError(o, k))
    ensures r.report.Some? <==> r.err.None?
    ensures r.report.Some? ==> r.report.value == Report(ReportArgsOf(cfg), o.send.statusCode)
  {
    if o.request.Some? then
      PostResult(o.request, [NewCloudEventRequest], None)
    else if o.conversion.Some? then
      PostResult(o.conversion, [NewCloudEventRequest, ConvertMessageToHTTPRequest], None)
    else if o.send.TransportFailure? then
      PostResult(Some(o.send.err), AllSteps, None)
    else if GoQuotient(o.send.statusCode, 100) != 2 then
      StatusClassIsRange(o.send.statusCode);
      PostResult(Some(UnexpectedStatus(o.send.statusCode)), AllSteps, None)
    else
      StatusClassIsRange(o.send.statusCode);
      // The reporter's error is discarded (`_ = a.reporter.ReportEventCount(...)`).
      PostResult(None, AllSteps, Some(Report(ReportArgsOf(cfg), o.send.statusCode)))
  }

  /** What the reporter answers never changes the outcome of postMessage. */
  lemma ReporterErrorIgnored(cfg: Config, d: Delivery, o: Outcomes, reporter: Option<Error>)
    ensures PostMessage(cfg, d, o.(reporter := reporter)) == PostMessage(cfg, d, o)
  {
  }

  /** A sink answering 200 gets the delivery forwarded and a report carrying 200. */
  lemma SinkAnswers200(cfg: Config, d: Delivery, reporter: Option<Error>)
    ensures var r := PostMessage(cfg, d, Outcomes(None, None, Response(200), reporter));
      r.err.None? && r.report == Some(Report(ReportArgsOf(cfg), 200))
  {
  }

  /** A sink answering 500 after the retries makes postMessage fail without a report. */
  lemma SinkAnswers500(cfg: Config, d: Delivery, reporter: Option<Error>)
    ensures var r := PostMessage(cfg, d, Outcomes(None, None, Response(500), reporter));
      r.err == Some(UnexpectedStatus(500)) && r.report.None?
  {
  }
}
