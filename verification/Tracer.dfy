// The bounded trace buffers, and the report that drains three of them.
module Tracer {
  import opened Wrappers

  // What a record carries: a JSON value, or the count of an overflow breadcrumb.
  datatype Data = Json(text: string) | Dropped(count: nat)

  datatype TraceRecord = TraceRecord(tag: string, id: Option<string>, data: Data, at: i64)

  predicate IsCrumb(r: TraceRecord) {
    r.data.Dropped?
  }

  function Crumb(id: Option<string>, overflow: nat, now: i64): TraceRecord {
    TraceRecord("traceBufferOverflow", id, Dropped(overflow), now)
  }

  // ---- The buffer of one source ------------------------------------------------------

  // The buffer under its bound: when it is exceeded, a breadcrumb and the newest records.
  function Capped(buffer: seq<TraceRecord>, max: nat, id: Option<string>, now: i64): seq<TraceRecord>
    requires max > 0
  {
    if |buffer| <= max then buffer
    else [Crumb(id, |buffer| - max, now)] + buffer[|buffer| - (max - 1)..]
  }

  function Restored(
      buffer: seq<TraceRecord>, records: seq<TraceRecord>, max: nat, id: Option<string>, now: i64): seq<TraceRecord>
    requires max > 0
  {
    if records == [] then buffer else Capped(records + buffer, max, id, now)
  }

  method CapBuffer(buffer: seq<TraceRecord>, max: nat, id: Option<string>, now: i64)
    returns (r: seq<TraceRecord>)
    requires max > 0
    ensures r == Capped(buffer, max, id, now)
    ensures |r| <= max
  {
    r := buffer;
    var overflow := Max(|r| - max, 0);
    if overflow == 0 {
      return;
    }
    r := r[overflow..];
    if |r| > 0 {
      r := r[0 := Crumb(id, overflow, now)];
    }
  }

  class Tracer {
    const id: Option<string>
    const maxBuffer: nat
    var buffer: seq<TraceRecord>

    ghost predicate Valid()
      reads this
    {
      maxBuffer > 0 && |buffer| <= maxBuffer
    }

    // `with_capacity`: a bound of zero is raised to one.
    constructor (id: Option<string>, maxBuffer: nat)
      ensures Valid() && buffer == [] && this.id == id && this.maxBuffer == Max(maxBuffer, 1)
    {
      this.id, this.maxBuffer, buffer := id, Max(maxBuffer, 1), [];
    }

    method Trace(tag: string, text: string, now: i64)
      requires Valid()
      modifies this
      ensures Valid()
      ensures buffer == Capped(old(buffer) + [TraceRecord(tag, id, Json(text), now)], maxBuffer, id, now)
    {
      buffer := buffer + [TraceRecord(tag, id, Json(text), now)];
      buffer := CapBuffer(buffer, maxBuffer, id, now);
    }

    method Take() returns (records: seq<TraceRecord>)
      requires Valid()
      modifies this
      ensures Valid()
      ensures buffer == [] && records == old(buffer)
    {
      records := buffer;
      buffer := [];
    }

    method Restore(records: seq<TraceRecord>, now: i64)
      requires Valid()
      modifies this
      ensures Valid()
      ensures buffer == Restored(old(buffer), records, maxBuffer, id, now)
    {
      if records == [] {
        return;
      }
      buffer := records + buffer;
      buffer := CapBuffer(buffer, maxBuffer, id, now);
    }
  }

  // ---- One report -----------------------------------------------------------------------

  class StatsReporter {
    const signal: Tracer
    const publisher: Tracer
    const subscriber: Tracer

    ghost predicate Valid()
      reads this, signal, publisher, subscriber
    {
      && signal.Valid() && publisher.Valid() && subscriber.Valid()
      && signal != publisher && publisher != subscriber && signal != subscriber
    }

    constructor (signal: Tracer, publisher: Tracer, subscriber: Tracer)
      requires signal.Valid() && publisher.Valid() && subscriber.Valid()
      requires signal != publisher && publisher != subscriber && signal != subscriber
      ensures Valid() && this.signal == signal && this.publisher == publisher && this.subscriber == subscriber
    {
      this.signal, this.publisher, this.subscriber := signal, publisher, subscriber;
    }

    // A report nothing is traced during: the request carries the three buffers
    // and the two sampled connections, and a failed one leaves every buffer as it was.
    method ReportOnce(publisherStats: string, subscriberStats: string, now: i64, accepted: bool)
      returns (request: seq<TraceRecord>)
      requires Valid()
      modifies signal, publisher, subscriber
      ensures Valid()
      ensures request == old(signal.buffer) + old(publisher.buffer) + old(subscriber.buffer)
        + [TraceRecord("getstats", publisher.id, Json(publisherStats), now),
           TraceRecord("getstats", subscriber.id, Json(subscriberStats), now)]
      ensures accepted ==> signal.buffer == publisher.buffer == subscriber.buffer == []
      ensures !accepted ==> signal.buffer == old(signal.buffer) && publisher.buffer == old(publisher.buffer)
      ensures !accepted ==> subscriber.buffer == old(subscriber.buffer)
    {
      var signalTraces := signal.Take();
      var publisherTraces := publisher.Take();
      var subscriberTraces := subscriber.Take();
      request := signalTraces + publisherTraces + subscriberTraces;
      request := request + [TraceRecord("getstats", publisher.id, Json(publisherStats), now)];
      request := request + [TraceRecord("getstats", subscriber.id, Json(subscriberStats), now)];
      if !accepted {
        subscriber.Restore(subscriberTraces, now);
        publisher.Restore(publisherTraces, now);
        signal.Restore(signalTraces, now);
      }
    }
  }

  // Within its bound a buffer keeps everything, and what is restored stands in front.
  lemma UncappedIsWhole(
      buffer: seq<TraceRecord>, records: seq<TraceRecord>, max: nat, id: Option<string>, now: i64)
    requires max > 0
    ensures |buffer| <= max ==> Capped(buffer, max, id, now) == buffer
    ensures |records| + |buffer| <= max ==> Restored(buffer, records, max, id, now) == records + buffer
    ensures records == [] ==> Restored(buffer, records, max, id, now) == buffer
    ensures |records| + |buffer| > max && records != [] ==>
      var kept := Restored(buffer, records, max, id, now);
      kept[1..] == (records + buffer)[|records| + |buffer| - (max - 1)..]
  {
  }

  // A full buffer still takes the newest record, unless its bound is one.
  lemma NewestIsKeptIff(buffer: seq<TraceRecord>, r: TraceRecord, max: nat, id: Option<string>, now: i64)
    requires max > 0 && |buffer| <= max && !IsCrumb(r)
    ensures var capped := Capped(buffer + [r], max, id, now);
      (capped[|capped| - 1] == r) <==> (max > 1 || buffer == [])
  {
    if max == 1 && buffer != [] {
      assert Capped(buffer + [r], max, id, now) == [Crumb(id, 1, now)];
    }
  }

  // The breadcrumb counts one entry less than the cap removes: the one it replaces.
  lemma CrumbUndercounts(buffer: seq<TraceRecord>, max: nat, id: Option<string>, now: i64)
    requires 0 < max < |buffer|
    ensures var capped := Capped(buffer, max, id, now);
      && |capped| == max
      && IsCrumb(capped[0]) && capped[0].data.count + 1 == |buffer| - |capped[1..]|
      && capped[1..] == buffer[capped[0].data.count + 1..]
      && capped[0] == TraceRecord("traceBufferOverflow", id, Dropped(|buffer| - max), now)
  {
  }
}
