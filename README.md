# RabbitMQ source adapter: forwarding core

A Dafny model of the forwarding core of the Knative RabbitMQ source adapter
(`pkg/adapter/adapter.go`). The adapter consumes deliveries from a broker
queue and forwards each one to one HTTP sink. Every delivery it takes gets
exactly one terminal disposition: an Ack, or a Nack without requeue.

The model has five modules:

- `AdapterTypes` (`types.dfy`) holds the configuration, the broker delivery
  and the error values. `Wrappers` (`wrappers.dfy`) holds `Option`, which
  stands for Go's nil-able `error`.
- `Endpoint` (`endpoint.dfy`) models `vhostHandler`. It joins the broker URL
  and the virtual host, and inserts a `/` only when neither side supplies
  one. Its result is tied to a reference description: broker as prefix,
  vhost as suffix, and a separator exactly when one is needed. A lemma
  proves that only one string fits that description.
- `Forwarding` (`forwarding.dfy`) models `postMessage` as a pure function.
  The foreign calls `NewCloudEventRequest`, `ConvertMessageToHTTPRequest`,
  `SendWithRetries` and `ReportEventCount` are not modelled; their outcomes
  are inputs. The contract says:
  - the call succeeds iff every step succeeds and the status is in
    200..299;
  - the first failing step ends the call with its error, and later steps
    are never invoked;
  - the event count is reported once, with the response status, and only
    on success.
  Go's truncating integer division is modelled explicitly (`GoQuotient`).
- `Worker` (`worker.dfy`) models what `processMessages` does per delivery:
  `Ack(false)` on success, `Nack(false, false)` on failure, in queue order.
  Its lemmas prove exactly one disposition per delivery when delivery tags
  are distinct. That disposition is an Ack iff the delivery was forwarded.
  They also prove one event-count report per Ack.
- `Dispatch` (`dispatch.dfy`) models `PollForMessages` without goroutines.
  The class `RelayQueue` holds the relay queue: a FIFO `buffer` with
  capacity `Parallelism`, a `closed` flag, and the dispositions and reports
  issued so far. Methods admit a delivery, close the queue, run one worker
  turn and drain the queue. `PollForMessages` runs them over a finite
  sequence of events `Deliver(d) | Stop | StreamClosed`. The admitted
  deliveries are the stream's deliveries before the first Stop or
  StreamClosed. After either, the queue is closed and drained, and nil is
  returned.

In this sequential model, a worker takes the head of the queue only when a
new delivery finds the queue full (the blocking send) and during the drain
after close. So dispositions come out in admission order.

Two settings of `Parallelism` are modelled from Go's semantics:
- Negative: `wg.Add` panics (`Panicked`).
- Zero: the relay queue is an unbuffered channel with no reader, so the
  first delivery blocks the loop for ever (`Deadlocked`). The stop signal
  is then never observed.

If the events run out before a Stop or StreamClosed, the run ends as
`Waiting`. It reports what is still buffered.

An empty broker with vhost `v` gives `v`, not `/v`: the code tests
`len(broker) > 0` before inserting the slash (pkg/adapter/adapter.go:89).
`Endpoint.Examples` records it.

## Model

| member | source | states |
|---|---|---|
| Endpoint.VhostHandler | pkg/adapter/adapter.go:88-95 | the endpoint starts with the broker and ends with the vhost; its length is the sum of both, plus one exactly when both are non-empty and neither supplies a slash, and then that extra character is '/'; an empty vhost gives the broker unchanged, an empty broker gives the vhost |
| Endpoint.DialTarget | pkg/adapter/adapter.go:98 | the address dialled is the composition of the configured broker URL and vhost, the URL unchanged when no vhost is configured |
| Endpoint.CompositionUnique | pkg/adapter/adapter.go:88-95 | at most one string meets the reference description of a composed endpoint |
| Endpoint.VhostHandlerIsTheComposition | pkg/adapter/adapter.go:88-95 | a string meets the reference description if and only if it is what vhostHandler returns |
| Endpoint.SlashAtJoint | pkg/adapter/adapter.go:89-94 | when broker and vhost are both non-empty, a '/' always stands at their joint |
| Endpoint.NoDeduplication | pkg/adapter/adapter.go:94 | a trailing slash on the broker and a leading slash on the vhost are both kept, giving "//" |
| Endpoint.LeadingSlashOptional | pkg/adapter/adapter.go:89-94 | behind a broker without a trailing slash, vhost "/v" and vhost "v" give the same endpoint |
| Endpoint.Examples | pkg/adapter/adapter.go:88-95 | "host"+"" is "host"; "host"+"v", "host/"+"v" and "host"+"/v" are "host/v"; "host/"+"/v" is "host//v"; ""+"v" is "v" |
| Forwarding.GoQuotient | pkg/adapter/adapter.go:281 | Go's integer quotient, truncated toward zero, for a positive divisor |
| Forwarding.StatusClassIsRange | pkg/adapter/adapter.go:281 | StatusCode/100 == 2 in Go's arithmetic holds exactly for codes 200..299, negative codes included |
| Forwarding.PostMessage | pkg/adapter/adapter.go:255-294 | success iff request creation, conversion and send all succeed and the status is 2xx; on failure the steps invoked are those up to the first failing one, all before it succeeded, and its error is returned; the event count is reported iff the call succeeds, once, with the configured namespace, name, resource group and the response status |
| Forwarding.ReporterErrorIgnored | pkg/adapter/adapter.go:292-293 | what the reporter answers never changes postMessage's result |
| Forwarding.SinkAnswers200 | pkg/adapter/adapter.go:275-293 | a sink answering 200 makes the call succeed and report status 200 |
| Forwarding.SinkAnswers500 | pkg/adapter/adapter.go:275-284 | a sink answering 500 after the retries makes the call fail with that status and report nothing |
| Worker.Dispose | pkg/adapter/adapter.go:239-251 | the disposition concerns the delivery's own tag and is single-message; it is an Ack iff the delivery was forwarded, and a Nack never requeues |
| Worker.ReportFor | pkg/adapter/adapter.go:286-292 | processing a delivery makes at most one report, exactly when it was forwarded, carrying the response status |
| Worker.DispositionsOf | pkg/adapter/adapter.go:237-252 | processing a queue issues one disposition per delivery, in queue order, each the one Dispose gives |
| Worker.DispositionsOfAppend | pkg/adapter/adapter.go:237-252 | processing two queue segments one after the other issues the dispositions of both, in order |
| Worker.ReportsOfAppend | pkg/adapter/adapter.go:237-252 | processing two queue segments one after the other makes the reports of both, in order |
| Worker.DispositionCountPerTag | pkg/adapter/adapter.go:237-252 | every delivery tag receives as many dispositions as there are deliveries carrying it |
| Worker.ExactlyOneDisposition | pkg/adapter/adapter.go:237-252 | with distinct delivery tags, each delivery receives exactly one disposition, an Ack iff it was forwarded |
| Worker.ReportsMatchAcks | pkg/adapter/adapter.go:237-252 | the event-count reports are exactly as many as the Acks, each with the configured report arguments and a 2xx status |
| Dispatch.StopIndex | pkg/adapter/adapter.go:217-232 | the position of the first Stop or StreamClosed: every earlier event is a delivery |
| Dispatch.UntilStopIsPrefix | pkg/adapter/adapter.go:217-232 | the admitted deliveries are the deliveries of the stream's prefix before the first Stop or StreamClosed |
| Dispatch.LaterEventsIgnored | pkg/adapter/adapter.go:219-229 | whatever follows the first Stop or StreamClosed, the admitted deliveries are the same and the loop still stops |
| Dispatch.RelayQueue.constructor | pkg/adapter/adapter.go:208-215 | a relay queue of capacity Parallelism starts empty and open, with no dispositions |
| Dispatch.RelayQueue.Admit | pkg/adapter/adapter.go:230 | an open queue with room gets the delivery at its tail, and nothing is disposed of |
| Dispatch.RelayQueue.Close | pkg/adapter/adapter.go:220 | closing changes nothing but the flag; an admission requires an open queue |
| Dispatch.RelayQueue.Receive | pkg/adapter/adapter.go:237-252 | a worker turn removes the queue's head and adds exactly its disposition, and its report if any |
| Dispatch.RelayQueue.ProcessMessages | pkg/adapter/adapter.go:235-253 | draining a closed queue disposes of every buffered delivery, in queue order, and leaves it empty |
| Dispatch.RelayQueue.Send | pkg/adapter/adapter.go:230 | with room in the queue the delivery is appended and nothing is disposed of; with a full queue one worker turn first removes the head and adds exactly its disposition and report, then the delivery is appended; with no buffer and no workers the send blocks and nothing changes |
| Dispatch.RelayQueue.AdmitUntilStop | pkg/adapter/adapter.go:217-232 | the loop admits exactly the deliveries before the first Stop or StreamClosed and stops iff one occurs, unless a send blocks |
| Dispatch.RelayQueue.Shutdown | pkg/adapter/adapter.go:219-228 | after close and wait, every delivery ever admitted has its disposition and the queue is empty |
| Dispatch.RunRelay | pkg/adapter/adapter.go:208-232 | for a non-negative Parallelism: blocks iff Parallelism is zero and a delivery precedes the stop; otherwise stops iff a Stop or StreamClosed occurs, having disposed of exactly the deliveries before it, in order; while waiting, at most Parallelism admitted deliveries are buffered and all earlier ones are disposed of |
| Dispatch.PollForMessages | pkg/adapter/adapter.go:206-232 | panics iff Parallelism is negative; deadlocks iff Parallelism is zero and a delivery comes before the stop; otherwise returns iff a Stop or StreamClosed occurs, always with nil, after exactly the deliveries before it have been disposed of in order; while waiting, at most Parallelism admitted deliveries are still buffered and all earlier ones are disposed of |
| Dispatch.StopWithThreeBuffered | pkg/adapter/adapter.go:217-232 | with two workers, a stop after three deliveries returns nil after all three are disposed of, in order |

## Left out

- Connection and channel setup are not modelled: `CreateConn`, `CreateChannel`, `start`, `StartAmqpClient` and `ConsumeMessages` (pkg/adapter/adapter.go:97-184). They are calls into the AMQP client library. The model does not record that `Qos` receives `Parallelism` as its prefetch count.
- The failed-`Consume` case is not modelled. `ConsumeMessages`' error is discarded and the loop then reads a nil channel, which never delivers. Such a run is an event sequence holding no deliveries.
- The retry configuration built at pkg/adapter/adapter.go:190-204 is not modelled. It depends on `utils.SetBackoffPolicy` and `kncloudevents.RetryConfigFromDeliverySpec`, which are not part of this model, and the invalid-policy `Fatalf` ends the process. The package-level `retryConfig` and `retriesInt32` globals go with it.
- The bodies of `NewCloudEventRequest`, `rabbit.ConvertMessageToHTTPRequest`, `SendWithRetries` and `ReportEventCount` are not modelled. Their outcomes are per-delivery inputs (`Forwarding.Outcomes`), and the HTTP retry and backoff schedule lives inside `SendWithRetries`.
- Concurrency is not modelled: goroutines, `sync.WaitGroup` and `select`. Workers run as sequential turns on one queue. Real workers may dispose of deliveries out of admission order. The in-flight bound appears only as the queue capacity.
- Dispatch.RelayQueue.Receive: a failing `Ack`/`Nack` is only logged by the source and the loop goes on. The model records the disposition as issued and does not model the broker's answer.
- Logging (zap) is left out.
- `NewAdapter`, `NewEnvConfig` and `Start` are not modelled; they are plumbing.
- pkg/rabbit/setup_test.go is not modelled. It tests a reconnect helper that is not part of this model.
