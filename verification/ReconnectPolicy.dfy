// The decisions of the join loop and of the reconnect loop: backoff, failure
// limits, bad SFUs, escalation, the disconnection timeout.
module ReconnectPolicy {
  import opened Wrappers

  datatype Strategy = Fast | Rejoin | Migrate | Disconnect

  predicate IsRateLimited(s: Strategy) {
    s == Rejoin || s == Migrate
  }

  // ---- Backoff, in milliseconds ---------------------------------------------

  function Clamp(x: int, low: int, high: int): int {
    if x < low then low else if x > high then high else x
  }

  function RetryMax(n: u32): int {
    Min(500 + n * 2000, 5000)
  }

  function RetryMin(n: u32): int {
    Clamp((n - 1) * 2000, 250, 5000)
  }

  // `nanos` is the reading of the wall clock.
  function FullJitter(span: nat, nanos: nat): nat {
    if span == 0 then 0 else nanos % (span + 1)
  }

  function RetryInterval(n: u32, nanos: nat): int {
    RetryMin(n) + FullJitter(Max(RetryMax(n) - RetryMin(n), 0), nanos)
  }

  // The delay stays between its two bounds, for every `n` and clock reading,
  lemma RetryIntervalRange(n: u32, nanos: nat)
    ensures 250 <= RetryMin(n) <= RetryInterval(n, nanos) <= RetryMax(n) <= 5000
  {
  }

  // which are these, by the number of the attempt,
  lemma RetryTable(n: u32, nanos: nat)
    ensures n == 0 ==> RetryInterval(n, nanos) == 250 + nanos % 251
    ensures n == 1 ==> RetryInterval(n, nanos) == 250 + nanos % 2251
    ensures n == 2 ==> RetryInterval(n, nanos) == 2000 + nanos % 2501
    ensures n == 3 ==> RetryInterval(n, nanos) == 4000 + nanos % 1001
    ensures n >= 4 ==> RetryInterval(n, nanos) == 5000
  {
  }

  // and takes every value between them.
  lemma RetryIntervalReaches(n: u32, delay: nat)
    requires RetryMin(n) <= delay <= RetryMax(n)
    ensures RetryInterval(n, delay - RetryMin(n)) == delay
  {
    var span := RetryMax(n) - RetryMin(n);
    assert delay - RetryMin(n) < span + 1;
  }

  // ---- Failure limits -----------------------------------------------------------

  const MAX_ICE_FAILURES: nat := 2
  const MAX_NEGOTIATION_FAILURES: nat := 3

  datatype Limits = Limits(ice: nat, negotiation: nat)

  const NO_FAILURES := Limits(0, 0)

  class FailureLimits {
    var iceFailures: nat
    var negotiationFailures: nat

    function View(): Limits
      reads this
    {
      Limits(iceFailures, negotiationFailures)
    }

    constructor ()
      ensures View() == NO_FAILURES
    {
      iceFailures, negotiationFailures := 0, 0;
    }

    method RecordIceNeverConnected() returns (reached: bool)
      modifies this
      ensures View() == old(View()).(ice := old(iceFailures) + 1)
      ensures reached <==> iceFailures >= MAX_ICE_FAILURES
    {
      iceFailures := iceFailures + 1;
      reached := iceFailures >= MAX_ICE_FAILURES;
    }

    method ResetIce()
      modifies this
      ensures View() == old(View()).(ice := 0)
    {
      iceFailures := 0;
    }

    method RecordNegotiationFailure() returns (reached: bool)
      modifies this
      ensures View() == old(View()).(negotiation := old(negotiationFailures) + 1)
      ensures reached <==> negotiationFailures >= MAX_NEGOTIATION_FAILURES
    {
      negotiationFailures := negotiationFailures + 1;
      reached := negotiationFailures >= MAX_NEGOTIATION_FAILURES;
    }

    method ResetNegotiation()
      modifies this
      ensures View() == old(View()).(negotiation := 0)
    {
      negotiationFailures := 0;
    }
  }

  // ---- Escalation -----------------------------------------------------------------

  function EscalateStrategy(elapsed: nat, deadline: nat, wasMigrating: bool, attempt: nat,
                            publisherHealthy: bool, subscriberHealthy: bool): Strategy
  {
    if elapsed > deadline || wasMigrating || attempt >= 3 || !publisherHealthy || !subscriberHealthy
    then Rejoin
    else Fast
  }

  // A zero timeout is unlimited.
  predicate DisconnectionTimedOut(elapsed: nat, timeout: nat) {
    timeout != 0 && elapsed > timeout
  }

  // ---- SFUs that failed a rejoin ------------------------------------------------------

  datatype Failure = Failure(edge: string, force: bool)

  // The count of an edge after `failures`: one each, at least two after a
  // failure that forces a switch, at most 2^32 - 1.
  function CountOf(failures: seq<Failure>, edge: string): u32 {
    if failures == [] then 0
    else
      var last := failures[|failures| - 1];
      var before := CountOf(failures[..|failures| - 1], edge);
      if last.edge == edge then Increased(before, last.force) else before
  }

  // The edges in the order in which their counts reached two.
  function Confirmed(failures: seq<Failure>): seq<string> {
    if failures == [] then []
    else
      var before := failures[..|failures| - 1];
      var edge := failures[|failures| - 1].edge;
      Confirmed(before) + if CountOf(before, edge) < 2 <= CountOf(failures, edge) then [edge] else []
  }

  // The tracker's fields hold what the history of failures says.
  ghost predicate Tracks(counts: map<string, u32>, confirmed: seq<string>, failures: seq<Failure>) {
    && (forall edge :: CountOf(failures, edge) == CountIn(counts, edge))
    && confirmed == Confirmed(failures)
  }

  function CountIn(counts: map<string, u32>, edge: string): u32 {
    if edge in counts then counts[edge] else 0
  }

  function Increased(count: u32, force: bool): u32 {
    var more := Min(count + 1, TWO_TO_32 - 1);
    if force then Max(more, 2) else more
  }

  class SfuRejoinFailures {
    var counts: map<string, u32>
    var confirmed: seq<string>
    ghost var failures: seq<Failure>

    ghost predicate Valid()
      reads this
    {
      Tracks(counts, confirmed, failures)
    }

    constructor ()
      ensures Valid() && failures == []
    {
      counts, confirmed, failures := map[], [], [];
    }

    method Record(edge: string, force: bool)
      requires Valid()
      modifies this
      ensures Valid() && failures == old(failures) + [Failure(edge, force)]
    {
      var count := CountIn(counts, edge);
      count := Min(count + 1, TWO_TO_32 - 1);
      if force {
        count := Max(count, 2);
      }
      TracksStep(counts, confirmed, failures, Failure(edge, force));
      hide Tracks;
      counts := counts[edge := count];
      if count >= 2 && edge !in confirmed {
        confirmed := confirmed + [edge];
      }
      failures := failures + [Failure(edge, force)];
    }
  }

  lemma TracksStep(counts: map<string, u32>, confirmed: seq<string>, failures: seq<Failure>, f: Failure)
    requires Tracks(counts, confirmed, failures)
    ensures var count := Increased(CountIn(counts, f.edge), f.force);
            Tracks(counts[f.edge := count],
                   if count >= 2 && f.edge !in confirmed then confirmed + [f.edge] else confirmed,
                   failures + [f])
  {
    var count := Increased(CountIn(counts, f.edge), f.force);
    forall edge
      ensures CountOf(failures + [f], edge) == CountIn(counts[f.edge := count], edge)
    {
      CountStep(failures, f, edge);
    }
    CountStep(failures, f, f.edge);
    ConfirmedStep(failures, f);
    ConfirmedIffTwice(failures, f.edge);
    hide CountOf, Confirmed;
  }

  lemma CountStep(failures: seq<Failure>, failure: Failure, edge: string)
    ensures CountOf(failures + [failure], edge)
         == if failure.edge == edge then Increased(CountOf(failures, edge), failure.force) else CountOf(failures, edge)
  {
    assert (failures + [failure])[..|failures|] == failures;
  }

  lemma ConfirmedStep(failures: seq<Failure>, failure: Failure)
    ensures Confirmed(failures + [failure])
         == Confirmed(failures)
            + if CountOf(failures, failure.edge) < 2 <= CountOf(failures + [failure], failure.edge)
              then [failure.edge] else []
  {
    assert (failures + [failure])[..|failures|] == failures;
  }

  // An edge is confirmed exactly when its count is at least two, and only once.
  lemma {:induction false} ConfirmedIffTwice(failures: seq<Failure>, edge: string)
    ensures edge in Confirmed(failures) <==> CountOf(failures, edge) >= 2
    ensures forall i, j :: 0 <= i < j < |Confirmed(failures)| ==> Confirmed(failures)[i] != Confirmed(failures)[j]
  {
    if failures != [] {
      var before := failures[..|failures| - 1];
      ConfirmedIffTwice(before, edge);
      ConfirmedIffTwice(before, failures[|failures| - 1].edge);
    }
  }

  // A longer history confirms the same edges first.
  lemma {:induction false} ConfirmedKeepsOrder(failures: seq<Failure>, more: seq<Failure>)
    ensures Confirmed(failures) <= Confirmed(failures + more)
    decreases |more|
  {
    if more == [] {
      assert failures + more == failures;
    } else {
      ConfirmedKeepsOrder(failures, more[..|more| - 1]);
      assert (failures + more)[..|failures + more| - 1] == failures + more[..|more| - 1];
    }
  }

  ghost predicate ForcedOff(failures: seq<Failure>, edge: string) {
    exists i :: 0 <= i < |failures| && failures[i] == Failure(edge, true)
  }

  ghost predicate FailedTwice(failures: seq<Failure>, edge: string) {
    exists i, j :: 0 <= i < j < |failures| && failures[i].edge == failures[j].edge == edge
  }

  // An edge is confirmed bad exactly if it failed twice, or once in a way that forces a switch.
  lemma {:induction false} ConfirmedIff(failures: seq<Failure>, edge: string)
    ensures edge in Confirmed(failures) <==> FailedTwice(failures, edge) || ForcedOff(failures, edge)
    ensures CountOf(failures, edge) > 0 <==> exists i :: 0 <= i < |failures| && failures[i].edge == edge
  {
    if failures != [] {
      var before, last := failures[..|failures| - 1], failures[|failures| - 1];
      ConfirmedIff(before, edge);
      ConfirmedIffTwice(before, edge);
      ConfirmedIffTwice(failures, edge);
      assert failures == before + [last];
      if last.edge == edge {
        assert last.force ==> failures[|before|] == Failure(edge, true);
        if i :| 0 <= i < |before| && before[i].edge == edge {
          assert failures[i].edge == failures[|before|].edge == edge;
        }
      }
      assert forall i :: 0 <= i < |before| ==> failures[i] == before[i];
      hide CountOf, Confirmed;
    }
  }
}
