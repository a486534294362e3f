/**
 * What a forwarding worker does with each delivery it takes from the relay
 * queue (`processMessages` in the adapter): forward it, then Ack it on
 * success or Nack it without requeue on failure. The outcomes of the
 * foreign calls for each delivery are given by `sink`.
 */
module Worker {
  import opened AdapterTypes
  import opened Forwarding

  /** The terminal disposition issued on a delivery, as `Ack(multiple)` / `Nack(multiple, requeue)`. */
  datatype Disposition = Ack(tag: nat, multiple: bool) | Nack(tag: nat, multiple: bool, requeue: bool)

  /** The disposition a worker issues for `d`: a single-message Ack or a Nack without requeue. */
  function Dispose(cfg: Config, d: Delivery, o: Outcomes): (r: Disposition)
    ensures r.tag == d.deliveryTag && !r.multiple
    ensures r.Ack? <==> Forwarded(o)
    ensures r.Nack? ==> !r.requeue
  {
    if PostMessage(cfg, d, o).err.None? then Ack(d.deliveryTag, false)
    else Nack(d.deliveryTag, false, false)
  }

  /** The reports a worker's postMessage makes for `d`: at most one. */
  function ReportFor(cfg: Config, d: Delivery, o: Outcomes): (r: seq<Report>)
    ensures |r| <= 1
    ensures |r| == 1 <==> Forwarded(o)
    ensures |r| == 1 ==> r[0] == Report(ReportArgsOf(cfg), o.send.statusCode)
  {
    var p := PostMessage(cfg, d, o);
    if p.report.Some? then [p.report.value] else []
  }

  /** The dispositions issued while processing `ds` in queue order. */
  function DispositionsOf(cfg: Config, ds: seq<Delivery>, sink: Delivery -> Outcomes): (r: seq<Disposition>)
    ensures |r| == |ds|
    ensures forall i {:trigger r[i]} :: 0 <= i < |ds| ==> r[i] == Dispose(cfg, ds[i], sink(ds[i]))
  {
    if ds == [] then []
    else [Dispose(cfg, ds[0], sink(ds[0]))] + DispositionsOf(cfg, ds[1..], sink)
  }

  /** The event-count reports made while processing `ds` in queue order. */
  function ReportsOf(cfg: Config, ds: seq<Delivery>, sink: Delivery -> Outcomes): seq<Report> {
    if ds == [] then []
    else ReportFor(cfg, ds[0], sink(ds[0])) + ReportsOf(cfg, ds[1..], sink)
  }

  lemma {:induction false} DispositionsOfAppend(cfg: Config, a: seq<Delivery>, b: seq<Delivery>, sink: Delivery -> Outcomes)
    ensures DispositionsOf(cfg, a + b, sink) == DispositionsOf(cfg, a, sink) + DispositionsOf(cfg, b, sink)
  {
    if a != [] {
      assert (a + b)[1..] == a[1..] + b;
      DispositionsOfAppend(cfg, a[1..], b, sink);
    }
  }

  lemma {:induction false} ReportsOfAppend(cfg: Config, a: seq<Delivery>, b: seq<Delivery>, sink: Delivery -> Outcomes)
    ensures ReportsOf(cfg, a + b, sink) == ReportsOf(cfg, a, sink) + ReportsOf(cfg, b, sink)
  {
    if a == [] {
      assert a + b == b;
    } else {
      assert (a + b)[1..] == a[1..] + b;
      ReportsOfAppend(cfg, a[1..], b, sink);
    }
  }

  /** How many dispositions in `r` concern delivery tag `tag`. */
  function DispositionsFor(r: seq<Disposition>, tag: nat): nat {
    if r == [] then 0
    else (if r[0].tag == tag then 1 else 0) + DispositionsFor(r[1..], tag)
  }

  /** How many deliveries in `ds` carry delivery tag `tag`. */
  function DeliveriesTagged(ds: seq<Delivery>, tag: nat): nat {
    if ds == [] then 0
    else (if ds[0].deliveryTag == tag then 1 else 0) + DeliveriesTagged(ds[1..], tag)
  }

  /** The broker assigns every delivery on a channel its own tag. */
  predicate DistinctTags(ds: seq<Delivery>) {
    forall i, j :: 0 <= i < j < |ds| ==> ds[i].deliveryTag != ds[j].deliveryTag
  }

  /** Every tag receives as many dispositions as there are deliveries carrying it. */
  lemma {:induction false} DispositionCountPerTag(cfg: Config, ds: seq<Delivery>, sink: Delivery -> Outcomes, tag: nat)
    ensures DispositionsFor(DispositionsOf(cfg, ds, sink), tag) == DeliveriesTagged(ds, tag)
  {
    if ds != [] {
      var r := DispositionsOf(cfg, ds, sink);
      assert r[1..] == DispositionsOf(cfg, ds[1..], sink);
      DispositionCountPerTag(cfg, ds[1..], sink, tag);
    }
  }

  lemma {:induction false} DistinctTagOccursOnce(ds: seq<Delivery>, i: nat)
    requires DistinctTags(ds) && i < |ds|
    ensures DeliveriesTagged(ds, ds[i].deliveryTag) == 1
  {
    if i == 0 {
      NotTagged(ds[1..], ds[0].deliveryTag);
    } else {
      assert ds[1..][i - 1] == ds[i];
      DistinctTagOccursOnce(ds[1..], i - 1);
    }
  }

  lemma {:induction false} NotTagged(ds: seq<Delivery>, tag: nat)
    requires forall i :: 0 <= i < |ds| ==> ds[i].deliveryTag != tag
    ensures DeliveriesTagged(ds, tag) == 0
  {
    if ds != [] {
      NotTagged(ds[1..], tag);
    }
  }

  /**
   * Exactly one disposition per delivery: processing deliveries with
   * distinct tags issues exactly one disposition on each of them, and it is
   * an Ack precisely when the delivery was forwarded.
   */
  lemma ExactlyOneDisposition(cfg: Config, ds: seq<Delivery>, sink: Delivery -> Outcomes, i: nat)
    requires DistinctTags(ds) && i < |ds|
    ensures DispositionsFor(DispositionsOf(cfg, ds, sink), ds[i].deliveryTag) == 1
    ensures DispositionsOf(cfg, ds, sink)[i].Ack? <==> Forwarded(sink(ds[i]))
  {
    DispositionCountPerTag(cfg, ds, sink, ds[i].deliveryTag);
    DistinctTagOccursOnce(ds, i);
  }

  /** How many Acks `r` holds. */
  function AckCount(r: seq<Disposition>): nat {
    if r == [] then 0 else (if r[0].Ack? then 1 else 0) + AckCount(r[1..])
  }

  /**
   * One event-count report per Ack, and none for a Nack: the reports made
   * while processing `ds` are as many as the Acks, and each carries a 2xx
   * status.
   */
  lemma {:induction false} ReportsMatchAcks(cfg: Config, ds: seq<Delivery>, sink: Delivery -> Outcomes)
    ensures |ReportsOf(cfg, ds, sink)| == AckCount(DispositionsOf(cfg, ds, sink))
    ensures forall k :: 0 <= k < |ReportsOf(cfg, ds, sink)| ==>
      ReportsOf(cfg, ds, sink)[k].args == ReportArgsOf(cfg) &&
      IsSuccessStatus(ReportsOf(cfg, ds, sink)[k].statusCode)
  {
    if ds != [] {
      var r := DispositionsOf(cfg, ds, sink);
      assert r[1..] == DispositionsOf(cfg, ds[1..], sink);
      ReportsMatchAcks(cfg, ds[1..], sink);
    }
  }
}
