// The join loop: retries, the one retry after an expired token, and the edges
// it asks the coordinator to avoid.
module JoinLoop {
  import opened Wrappers
  import opened ReconnectPolicy

  datatype JoinError = JoinError(unrecoverable: bool, joinCode: bool, expired: bool)

  // The result of one call of `join_once`; the edge is known once the
  // coordinator has answered.
  datatype CallResult = Connected | CallFailed(error: JoinError, edge: Option<string>)

  //  - `refreshed`: a token refresh after this call succeeds.
  //  - `current`: the generation is still current after this call and the
  //    backoff that follows it.
  datatype Call = Call(result: CallResult, refreshed: bool, current: bool, nanos: nat)

  // What a call of `join_once` asks the coordinator.
  datatype Request = Request(attempt: nat, migratingFrom: Option<string>, migratingFromList: seq<string>)

  datatype JoinOutcome = JoinedCall | JoinCancelled | JoinFailed(error: JoinError) | RefreshFailed | Pending

  datatype Verdict = Abort | Exhausted | Retry(delay: int, switchSfu: bool)

  function EvaluateJoinFailure(unrecoverable: bool, joinCode: bool, edgeFailures: nat, attempt: u32, maxRetries: nat,
                               nanos: nat): Verdict
  {
    if unrecoverable then Abort
    else if attempt + 1 >= Max(maxRetries, 1) then Exhausted
    else Retry(RetryInterval(attempt, nanos), joinCode || edgeFailures >= 2)
  }

  // ---- What the requests should hold -----------------------------------------

  // The first expired token is retried at once and counts for no edge.
  function WithoutRetry(calls: seq<Call>, retryUsed: bool): seq<Call> {
    if calls == [] then []
    else if !retryUsed && Expired(calls[0].result) then WithoutRetry(calls[1..], true)
    else [calls[0]] + WithoutRetry(calls[1..], retryUsed)
  }

  predicate Expired(r: CallResult) {
    r.CallFailed? && r.error.expired
  }

  predicate FailedAt(c: Call, edge: string) {
    c.result.CallFailed? && c.result.edge == Some(edge)
  }

  function FailuresAt(history: seq<Call>, edge: string): nat {
    if history == [] then 0
    else
      var last := history[|history| - 1];
      FailuresAt(history[..|history| - 1], edge) + if FailedAt(last, edge) then 1 else 0
  }

  // The last failure of the history makes its edge one to avoid.
  predicate Switches(history: seq<Call>)
    requires history != []
  {
    var r := history[|history| - 1].result;
    r.CallFailed? && r.edge.Some? && (r.error.joinCode || FailuresAt(history, r.edge.value) >= 2)
  }

  // The edges to avoid, in the order in which they were found bad.
  function BadEdges(history: seq<Call>): seq<string> {
    if history == [] then []
    else
      var before := BadEdges(history[..|history| - 1]);
      if !Switches(history) then before
      else
        var edge := history[|history| - 1].result.edge.value;
        if edge in before then before else before + [edge]
  }

  function LastBadEdge(history: seq<Call>): Option<string> {
    if history == [] then None
    else if Switches(history) then history[|history| - 1].result.edge
    else LastBadEdge(history[..|history| - 1])
  }

  // An edge is avoided exactly when it failed with a join error code or twice,
  // and is listed once; the single edge of the request is one of the list.
  lemma {:induction false} BadEdgesIff(history: seq<Call>, edge: string)
    ensures edge in BadEdges(history) <==>
              || FailuresAt(history, edge) >= 2
              || exists i :: 0 <= i < |history| && FailedAt(history[i], edge) && history[i].result.error.joinCode
    ensures forall i, j :: 0 <= i < j < |BadEdges(history)| ==> BadEdges(history)[i] != BadEdges(history)[j]
    ensures LastBadEdge(history).None? <==> BadEdges(history) == []
    ensures LastBadEdge(history).Some? ==> LastBadEdge(history).value in BadEdges(history)
  {
    if history != [] {
      var before, last := history[..|history| - 1], history[|history| - 1];
      BadEdgesIff(before, edge);
      if last.result.CallFailed? && last.result.edge.Some? {
        BadEdgesIff(before, last.result.edge.value);
      }
      assert forall i :: 0 <= i < |before| ==> history[i] == before[i];
    }
  }

  ghost predicate SawExpired(calls: seq<Call>) {
    exists i :: 0 <= i < |calls| && Expired(calls[i].result)
  }

  // ---- The loop --------------------------------------------------------------------

  lemma {:induction false} WithoutRetryAppend(calls: seq<Call>, call: Call, retryUsed: bool)
    ensures WithoutRetry(calls + [call], retryUsed)
         == WithoutRetry(calls, retryUsed)
            + if !retryUsed && !SawExpired(calls) && Expired(call.result) then [] else [call]
  {
    if calls == [] {
      assert calls + [call] == [call] && [call][1..] == [];
    } else {
      assert (calls + [call])[1..] == calls[1..] + [call];
      WithoutRetryAppend(calls[1..], call, retryUsed || Expired(calls[0].result));
      assert SawExpired(calls) <==> Expired(calls[0].result) || SawExpired(calls[1..]) by {
        if SawExpired(calls[1..]) {
          var i :| 0 <= i < |calls[1..]| && Expired(calls[1..][i].result);
          assert Expired(calls[i + 1].result);
        }
        if SawExpired(calls) && !Expired(calls[0].result) {
          var i :| 0 <= i < |calls| && Expired(calls[i].result);
          assert Expired(calls[1..][i - 1].result);
        }
      }
    }
  }

  function EdgeCount(edgeFailures: map<string, nat>, edge: string): nat {
    if edge in edgeFailures then edgeFailures[edge] else 0
  }

  lemma FailuresStep(history: seq<Call>, call: Call, edge: string)
    ensures FailuresAt(history + [call], edge) == FailuresAt(history, edge) + if FailedAt(call, edge) then 1 else 0
  {
    assert (history + [call])[..|history|] == history;
  }

  lemma BadEdgesStep(history: seq<Call>, call: Call)
    ensures var more := history + [call];
            && BadEdges(more) == (if !Switches(more) || call.result.edge.value in BadEdges(history) then BadEdges(history)
                                  else BadEdges(history) + [call.result.edge.value])
            && LastBadEdge(more) == if Switches(more) then call.result.edge else LastBadEdge(history)
  {
    assert (history + [call])[..|history|] == history;
  }

  // The loop's variables after the counted calls of `history`.
  ghost predicate Follows(history: seq<Call>, edgeFailures: map<string, nat>, badSfus: seq<string>,
                          migratingFrom: Option<string>)
  {
    && (forall edge :: EdgeCount(edgeFailures, edge) == FailuresAt(history, edge))
    && badSfus == BadEdges(history)
    && migratingFrom == LastBadEdge(history)
  }

  // Counting a failure and switching away from its edge follow one more call.
  lemma FollowsStep(history: seq<Call>, call: Call, edgeFailures: map<string, nat>, badSfus: seq<string>,
                    migratingFrom: Option<string>, edgeFailures': map<string, nat>, badSfus': seq<string>,
                    migratingFrom': Option<string>)
    requires Follows(history, edgeFailures, badSfus, migratingFrom) && call.result.CallFailed?
    requires var edge := call.result.edge;
             var count := if edge.Some? then EdgeCount(edgeFailures, edge.value) + 1 else 1;
             var switch := edge.Some? && (call.result.error.joinCode || count >= 2);
             && edgeFailures' == (if edge.Some? then edgeFailures[edge.value := count] else edgeFailures)
             && badSfus' == (if switch && edge.value !in badSfus then badSfus + [edge.value] else badSfus)
             && migratingFrom' == if switch then edge else migratingFrom
    ensures Follows(history + [call], edgeFailures', badSfus', migratingFrom')
  {
    forall edge
      ensures EdgeCount(edgeFailures', edge) == FailuresAt(history + [call], edge)
    {
      FailuresStep(history, call, edge);
    }
    if call.result.edge.Some? {
      FailuresStep(history, call, call.result.edge.value);
    }
    BadEdgesStep(history, call);
    hide FailuresAt, BadEdges, LastBadEdge;
  }

  // Count a failed call for its edge, decide, and switch away from a bad edge.
  method CountFailure(call: Call, attempt: u32, maxRetries: nat, edgeFailures: map<string, nat>, badSfus: seq<string>,
                      migratingFrom: Option<string>, ghost history: seq<Call>)
    returns (verdict: Verdict, edgeFailures': map<string, nat>, badSfus': seq<string>, migratingFrom': Option<string>)
    requires Follows(history, edgeFailures, badSfus, migratingFrom) && call.result.CallFailed?
    ensures verdict.Abort? <==> call.result.error.unrecoverable
    ensures verdict.Retry? <==> !call.result.error.unrecoverable && attempt + 1 < Max(maxRetries, 1)
    ensures verdict.Retry? ==> Follows(history + [call], edgeFailures', badSfus', migratingFrom')
    ensures verdict.Retry? ==> verdict.delay == RetryInterval(attempt, call.nanos)
  {
    var CallFailed(error, edge) := call.result;
    edgeFailures', badSfus', migratingFrom' := edgeFailures, badSfus, migratingFrom;
    var failures := 1;
    if edge.Some? {
      failures := EdgeCount(edgeFailures, edge.value) + 1;
      edgeFailures' := edgeFailures[edge.value := failures];
    }
    verdict := EvaluateJoinFailure(error.unrecoverable, error.joinCode, failures, attempt, maxRetries, call.nanos);
    if verdict.Retry? {
      if verdict.switchSfu && edge.Some? {
        migratingFrom' := edge;
        if edge.value !in badSfus {
          badSfus' := badSfus + [edge.value];
        }
      }
      FollowsStep(history, call, edgeFailures, badSfus, migratingFrom, edgeFailures', badSfus', migratingFrom');
    }
  }

  // How the loop ends with `call` at an attempt; None if it goes on.
  function Decided(call: Call, attempt: nat, expiredRetryUsed: bool, maxRetries: nat): Option<JoinOutcome> {
    if Expired(call.result) && !expiredRetryUsed then
      if call.refreshed then None else Some(RefreshFailed)
    else if call.result.Connected? then Some(if call.current then JoinedCall else JoinCancelled)
    else if call.result.error.unrecoverable || attempt + 1 >= maxRetries then Some(JoinFailed(call.result.error))
    else if !call.current then Some(JoinCancelled)
    else None
  }

  // How it ends with `call` after the calls `before`.
  ghost function EndOf(before: seq<Call>, call: Call, maxRetries: nat): Option<JoinOutcome> {
    Decided(call, |WithoutRetry(before, false)|, SawExpired(before), maxRetries)
  }

  // The first expired token of the loop.
  ghost predicate IsFirstExpired(before: seq<Call>, call: Call) {
    && call.result.CallFailed? && call.result.error.expired
    && forall i :: 0 <= i < |before| ==> before[i].result.CallFailed? ==> !before[i].result.error.expired
  }

  // The attempts before a call, the one after an expired token not counted.
  ghost function AttemptOf(before: seq<Call>): nat {
    if SawExpired(before) then |before| - 1 else |before|
  }

  // What the end of the loop says about its last call.
  ghost predicate EndsAs(before: seq<Call>, call: Call, maxRetries: nat, outcome: JoinOutcome) {
    match outcome
    case JoinedCall => call.result.Connected? && call.current
    case RefreshFailed => IsFirstExpired(before, call) && !call.refreshed
    case JoinFailed(error) =>
      && call.result.CallFailed? && error == call.result.error && !IsFirstExpired(before, call)
      && (error.unrecoverable || AttemptOf(before) + 1 >= maxRetries)
    case JoinCancelled => !call.current && !IsFirstExpired(before, call)
    case Pending => false
  }

  lemma {:induction false} WithoutRetryLength(calls: seq<Call>, used: bool)
    ensures |WithoutRetry(calls, used)| == if !used && SawExpired(calls) then |calls| - 1 else |calls|
  {
    if calls != [] {
      WithoutRetryLength(calls[1..], used || Expired(calls[0].result));
      assert calls == [calls[0]] + calls[1..];
      if i :| 0 <= i < |calls| && Expired(calls[i].result) {
        assert i > 0 ==> calls[i] == calls[1..][i - 1];
      }
      if i :| 0 <= i < |calls[1..]| && Expired(calls[1..][i].result) {
        assert Expired(calls[i + 1].result);
      }
    }
  }

  lemma {:induction false} WithoutRetryUsed(calls: seq<Call>)
    requires !SawExpired(calls)
    ensures WithoutRetry(calls, false) == calls
  {
    if calls != [] {
      assert !Expired(calls[0].result);
      assert forall i :: 0 <= i < |calls[1..]| ==> calls[1..][i] == calls[i + 1];
      WithoutRetryUsed(calls[1..]);
      hide Expired;
    }
  }

  // What counts towards attempts and edges: every call but the first expired one.
  lemma {:induction false} WithoutRetryIs(calls: seq<Call>, i: nat)
    requires i < |calls| && IsFirstExpired(calls[..i], calls[i])
    ensures WithoutRetry(calls, false) == calls[..i] + calls[i + 1..]
  {
    var rest := calls[1..];
    if i == 0 {
      WithoutRetryAll(rest);
    } else {
      assert !Expired(calls[0].result) by {
        assert calls[..i][0] == calls[0];
      }
      assert rest[..i - 1] == calls[..i][1..];
      assert IsFirstExpired(rest[..i - 1], rest[i - 1]);
      WithoutRetryIs(rest, i - 1);
      assert calls[..i] == [calls[0]] + rest[..i - 1] && rest[i..] == calls[i + 1..];
      hide IsFirstExpired, Expired;
    }
  }

  lemma {:induction false} WithoutRetryAll(calls: seq<Call>)
    ensures WithoutRetry(calls, true) == calls
  {
    if calls != [] {
      WithoutRetryAll(calls[1..]);
    }
  }

  // The loop goes on exactly after a first expired token that is refreshed, and after
  // another failure that may be repeated while the generation is current. Otherwise it
  // ends, and in one way only.
  lemma EndIs(before: seq<Call>, call: Call, maxRetries: nat)
    ensures EndOf(before, call, maxRetries).None? <==>
      if IsFirstExpired(before, call) then call.refreshed
      else
        call.result.CallFailed? && !call.result.error.unrecoverable && AttemptOf(before) + 1 < maxRetries && call.current
    ensures EndOf(before, call, maxRetries).Some? ==>
      EndsAs(before, call, maxRetries, EndOf(before, call, maxRetries).value)
    ensures EndOf(before, call, maxRetries) == Some(JoinCancelled) ==>
      call.result.Connected? || (!call.result.error.unrecoverable && AttemptOf(before) + 1 < maxRetries)
  {
    WithoutRetryLength(before, false);
    assert IsFirstExpired(before, call) <==> Expired(call.result) && !SawExpired(before);
    hide WithoutRetry;
  }

  // None of the first `n` calls ends the loop.
  ghost predicate GoesOn(calls: seq<Call>, n: nat, maxRetries: nat)
    requires n <= |calls|
  {
    forall k :: 0 <= k < n ==> EndOf(calls[..k], calls[k], maxRetries).None?
  }

  // The requests are those that follow the calls.
  ghost predicate Asked(requests: seq<Request>, calls: seq<Call>, maxRetries: nat)
    requires |requests| <= |calls|
  {
    forall k :: 0 <= k < |requests| ==> requests[k] == RequestAfter(calls[..k]) && requests[k].attempt < maxRetries
  }

  lemma NextAsked(requests: seq<Request>, calls: seq<Call>, maxRetries: nat, request: Request)
    requires |requests| < |calls| && Asked(requests, calls, maxRetries)
    requires request == RequestAfter(calls[..|requests|]) && request.attempt < maxRetries
    ensures Asked(requests + [request], calls, maxRetries)
  {
    hide RequestAfter;
  }

  lemma NextGoesOn(calls: seq<Call>, n: nat, maxRetries: nat)
    requires n < |calls| && GoesOn(calls, n, maxRetries) && EndOf(calls[..n], calls[n], maxRetries).None?
    ensures GoesOn(calls, n + 1, maxRetries)
  {
    hide EndOf;
  }

  lemma RequestFollows(before: seq<Call>, edgeFailures: map<string, nat>, badSfus: seq<string>,
                       migratingFrom: Option<string>)
    requires Follows(WithoutRetry(before, false), edgeFailures, badSfus, migratingFrom)
    ensures RequestAfter(before) == Request(|WithoutRetry(before, false)|, migratingFrom, badSfus)
  {
  }

  // What holds once the request for call `n` is added.
  lemma NextCall(requests: seq<Request>, calls: seq<Call>, maxRetries: nat, edgeFailures: map<string, nat>,
                 badSfus: seq<string>, migratingFrom: Option<string>)
    requires |requests| < |calls| && Asked(requests, calls, maxRetries)
    requires Follows(WithoutRetry(calls[..|requests|], false), edgeFailures, badSfus, migratingFrom)
    requires |WithoutRetry(calls[..|requests|], false)| < maxRetries
    ensures var n := |requests|; var history := WithoutRetry(calls[..n], false);
      && Asked(requests + [Request(|history|, migratingFrom, badSfus)], calls, maxRetries)
      && WithoutRetry(calls[..n + 1], false)
         == (if !SawExpired(calls[..n]) && Expired(calls[n].result) then history else history + [calls[n]])
      && (SawExpired(calls[..n + 1]) <==> SawExpired(calls[..n]) || Expired(calls[n].result))
  {
    var n := |requests|;
    var history := WithoutRetry(calls[..n], false);
    assert calls[..n + 1] == calls[..n] + [calls[n]];
    RequestFollows(calls[..n], edgeFailures, badSfus, migratingFrom);
    WithoutRetryAppend(calls[..n], calls[n], false);
    SawExpiredAppend(calls[..n], calls[n]);
    hide *;
    NextAsked(requests, calls, maxRetries, Request(|history|, migratingFrom, badSfus));
    assert history + [] == history;
  }

  // The variables of the loop before call |requests|.
  ghost predicate Reached(
      requests: seq<Request>, calls: seq<Call>, maxRetries: nat, attempt: nat, expiredRetryUsed: bool,
      edgeFailures: map<string, nat>, badSfus: seq<string>, migratingFrom: Option<string>)
  {
    var n := |requests|;
    && n <= |calls| && attempt < maxRetries && n == attempt + (if expiredRetryUsed then 1 else 0)
    && attempt == |WithoutRetry(calls[..n], false)| && (expiredRetryUsed <==> SawExpired(calls[..n]))
    && Follows(WithoutRetry(calls[..n], false), edgeFailures, badSfus, migratingFrom)
    && Asked(requests, calls, maxRetries) && GoesOn(calls, n, maxRetries)
  }

  lemma ReachedAtStart(calls: seq<Call>, maxRetries: nat)
    requires maxRetries > 0
    ensures Reached([], calls, maxRetries, 0, false, map[], [], None)
  {
  }

  lemma ReachedBounds(requests: seq<Request>, calls: seq<Call>, maxRetries: nat, attempt: nat, used: bool,
                      edgeFailures: map<string, nat>, badSfus: seq<string>, migratingFrom: Option<string>)
    requires Reached(requests, calls, maxRetries, attempt, used, edgeFailures, badSfus, migratingFrom)
    ensures |requests| <= |calls| && |requests| <= maxRetries && attempt < maxRetries
    ensures Asked(requests, calls, maxRetries) && GoesOn(calls, |requests|, maxRetries)
    ensures Follows(WithoutRetry(calls[..|requests|], false), edgeFailures, badSfus, migratingFrom)
  {
    hide Asked, GoesOn, Follows;
  }

  // The call that comes ends the loop as decided.
  lemma CallDecides(requests: seq<Request>, calls: seq<Call>, maxRetries: nat, attempt: nat, used: bool,
                    edgeFailures: map<string, nat>, badSfus: seq<string>, migratingFrom: Option<string>)
    requires Reached(requests, calls, maxRetries, attempt, used, edgeFailures, badSfus, migratingFrom)
    requires |requests| < |calls|
    ensures var n := |requests|;
      && n <= maxRetries && GoesOn(calls, n, maxRetries)
      && Asked(requests + [Request(attempt, migratingFrom, badSfus)], calls, maxRetries)
      && EndOf(calls[..n], calls[n], maxRetries) == Decided(calls[n], attempt, used, maxRetries)
  {
    NextCall(requests, calls, maxRetries, edgeFailures, badSfus, migratingFrom);
    hide Asked, GoesOn, Follows, WithoutRetry, SawExpired;
  }

  // The first expired token is retried at the same attempt.
  lemma ReachedAfterRetry(requests: seq<Request>, calls: seq<Call>, maxRetries: nat, attempt: nat,
                          edgeFailures: map<string, nat>, badSfus: seq<string>, migratingFrom: Option<string>)
    requires Reached(requests, calls, maxRetries, attempt, false, edgeFailures, badSfus, migratingFrom)
    requires |requests| < |calls| && Expired(calls[|requests|].result)
    requires Decided(calls[|requests|], attempt, false, maxRetries).None?
    ensures Reached(requests + [Request(attempt, migratingFrom, badSfus)], calls, maxRetries, attempt, true,
                    edgeFailures, badSfus, migratingFrom)
  {
    NextCall(requests, calls, maxRetries, edgeFailures, badSfus, migratingFrom);
    hide Asked, GoesOn, Follows, WithoutRetry, SawExpired, Decided;
    NextGoesOn(calls, |requests|, maxRetries);
  }

  // Any other failure that is retried counts.
  lemma ReachedAfterFailure(
      requests: seq<Request>, calls: seq<Call>, maxRetries: nat, attempt: nat, used: bool,
      edgeFailures: map<string, nat>, badSfus: seq<string>, migratingFrom: Option<string>,
      edgeFailures': map<string, nat>, badSfus': seq<string>, migratingFrom': Option<string>)
    requires Reached(requests, calls, maxRetries, attempt, used, edgeFailures, badSfus, migratingFrom)
    requires |requests| < |calls| && attempt + 1 < maxRetries && (Expired(calls[|requests|].result) ==> used)
    requires Decided(calls[|requests|], attempt, used, maxRetries).None?
    requires Follows(WithoutRetry(calls[..|requests|], false) + [calls[|requests|]],
                     edgeFailures', badSfus', migratingFrom')
    ensures Reached(requests + [Request(attempt, migratingFrom, badSfus)], calls, maxRetries, attempt + 1, used,
                    edgeFailures', badSfus', migratingFrom')
  {
    NextCall(requests, calls, maxRetries, edgeFailures, badSfus, migratingFrom);
    hide Asked, GoesOn, Follows, WithoutRetry, SawExpired, Decided;
    NextGoesOn(calls, |requests|, maxRetries);
  }

  // The body of the loop after `join_once`: how it ends, or the variables it goes on with.
  method TakeCall(call: Call, attempt: u32, maxRetries: nat, used: bool, edgeFailures: map<string, nat>,
                  badSfus: seq<string>, migratingFrom: Option<string>, ghost history: seq<Call>)
    returns (ended: Option<JoinOutcome>, attempt': nat, used': bool, edgeFailures': map<string, nat>,
             badSfus': seq<string>, migratingFrom': Option<string>)
    requires maxRetries > 0 && attempt < maxRetries && Follows(history, edgeFailures, badSfus, migratingFrom)
    ensures ended == Decided(call, attempt, used, maxRetries)
    ensures ended.None? && Expired(call.result) && !used ==>
      attempt' == attempt && used' && (edgeFailures', badSfus', migratingFrom') == (edgeFailures, badSfus, migratingFrom)
    ensures ended.None? && (Expired(call.result) ==> used) ==>
      && attempt' == attempt + 1 < maxRetries && used' == used
      && Follows(history + [call], edgeFailures', badSfus', migratingFrom')
  {
    hide Follows, RetryInterval;
    ended, attempt', used' := None, attempt, used;
    edgeFailures', badSfus', migratingFrom' := edgeFailures, badSfus, migratingFrom;
    if Expired(call.result) && !used {
      if !call.refreshed {
        ended := Some(RefreshFailed);
      }
      used' := true;
      return;
    }
    if call.result.Connected? {
      ended := Some(if call.current then JoinedCall else JoinCancelled);
      return;
    }
    var verdict;
    verdict, edgeFailures', badSfus', migratingFrom' :=
      CountFailure(call, attempt, maxRetries, edgeFailures, badSfus, migratingFrom, history);
    attempt' := attempt + 1;
    if !verdict.Retry? {
      ended := Some(JoinFailed(call.result.error));
    } else if !call.current {
      ended := Some(JoinCancelled);
    }
  }

  // `calls` is what happens as far as the loop is looked at; `Pending` when it goes
  // on after that.
  method RunJoinLoop(maxJoinRetries: u32, calls: seq<Call>) returns (requests: seq<Request>, outcome: JoinOutcome)
    ensures |requests| <= |calls| && |requests| <= Max(maxJoinRetries, 1) + 1
    ensures Asked(requests, calls, Max(maxJoinRetries, 1))
    ensures outcome == Pending ==> |requests| == |calls| && GoesOn(calls, |calls|, Max(maxJoinRetries, 1))
    ensures outcome != Pending ==>
      && requests != [] && GoesOn(calls, |requests| - 1, Max(maxJoinRetries, 1))
      && EndOf(calls[..|requests| - 1], calls[|requests| - 1], Max(maxJoinRetries, 1)) == Some(outcome)
      && EndsAs(calls[..|requests| - 1], calls[|requests| - 1], Max(maxJoinRetries, 1), outcome)
  {
    var maxRetries := Max(maxJoinRetries, 1);
    var migratingFrom: Option<string> := None;
    var edgeFailures: map<string, nat> := map[];
    var badSfus: seq<string> := [];
    var expiredRetryUsed := false;
    requests := [];
    var attempt: nat := 0;
    ReachedAtStart(calls, maxRetries);
    hide Reached, Asked, GoesOn, EndOf, EndsAs, Decided, RetryInterval, Follows, WithoutRetry, SawExpired;
    // The last attempt is never retried, so the range of attempts does not run out.
    while true
      invariant Reached(requests, calls, maxRetries, attempt, expiredRetryUsed, edgeFailures, badSfus, migratingFrom)
      decreases maxRetries - attempt, !expiredRetryUsed
    {
      ReachedBounds(requests, calls, maxRetries, attempt, expiredRetryUsed, edgeFailures, badSfus, migratingFrom);
      if |requests| == |calls| {
        return requests, Pending;
      }
      var call := calls[|requests|];
      CallDecides(requests, calls, maxRetries, attempt, expiredRetryUsed, edgeFailures, badSfus, migratingFrom);
      var request := Request(attempt, migratingFrom, badSfus);
      var ended, attempt', used, counts, bad, from := TakeCall(
        call, attempt, maxRetries, expiredRetryUsed, edgeFailures, badSfus, migratingFrom,
        WithoutRetry(calls[..|requests|], false));
      if ended.Some? {
        EndIs(calls[..|requests|], call, maxRetries);
        return requests + [request], ended.value;
      }
      if Expired(call.result) && !expiredRetryUsed {
        ReachedAfterRetry(requests, calls, maxRetries, attempt, edgeFailures, badSfus, migratingFrom);
      } else {
        ReachedAfterFailure(requests, calls, maxRetries, attempt, expiredRetryUsed, edgeFailures, badSfus,
                            migratingFrom, counts, bad, from);
      }
      requests, attempt, expiredRetryUsed := requests + [request], attempt', used;
      edgeFailures, badSfus, migratingFrom := counts, bad, from;
    }
  }

  // The request that follows `calls`.
  function RequestAfter(calls: seq<Call>): Request {
    var history := WithoutRetry(calls, false);
    Request(|history|, LastBadEdge(history), BadEdges(history))
  }

  lemma SawExpiredAppend(calls: seq<Call>, call: Call)
    ensures SawExpired(calls + [call]) <==> SawExpired(calls) || Expired(call.result)
  {
    var more := calls + [call];
    assert more[|calls|] == call && more[..|calls|] == calls;
    if SawExpired(calls) {
      var i :| 0 <= i < |calls| && Expired(calls[i].result);
      assert more[i] == calls[i];
    }
  }

  // ---- What the requests avoid ---------------------------------------------------------------

  // What was avoided stays avoided, in the same order.
  lemma {:induction false} BadEdgesGrow(history: seq<Call>, n: nat)
    requires n <= |history|
    ensures BadEdges(history[..n]) <= BadEdges(history)
  {
    if n < |history| {
      var front := history[..|history| - 1];
      assert front[..n] == history[..n];
      BadEdgesGrow(front, n);
    } else {
      assert history[..n] == history;
    }
  }

  lemma {:induction false} FailuresAtIs(history: seq<Call>, edge: string)
    ensures FailuresAt(history, edge) > 0 <==> exists i :: 0 <= i < |history| && FailedAt(history[i], edge)
  {
    if history != [] {
      var front := history[..|history| - 1];
      FailuresAtIs(front, edge);
      assert forall i :: 0 <= i < |front| ==> history[i] == front[i];
      assert FailedAt(history[|history| - 1], edge) || FailuresAt(history, edge) == FailuresAt(front, edge);
    }
  }

  // A failure of a known edge, with a join error code or not its first.
  ghost predicate MakesBad(history: seq<Call>, i: nat)
    requires i < |history|
  {
    && history[i].result.CallFailed? && history[i].result.edge.Some?
    && (history[i].result.error.joinCode
        || exists j :: 0 <= j < i && history[j].result.CallFailed? && history[j].result.edge == history[i].result.edge)
  }

  lemma SwitchesIff(history: seq<Call>)
    requires history != []
    ensures Switches(history) <==> MakesBad(history, |history| - 1)
  {
    var front, last := history[..|history| - 1], history[|history| - 1];
    if last.result.CallFailed? && last.result.edge.Some? {
      FailuresAtIs(front, last.result.edge.value);
      assert forall j :: 0 <= j < |front| ==> history[j] == front[j];
      assert FailuresAt(history, last.result.edge.value) == FailuresAt(front, last.result.edge.value) + 1;
    }
    hide FailuresAt;
  }

  // The single edge of a request is that of the latest failure that made one bad.
  lemma {:induction false} LastBadEdgeIs(history: seq<Call>) returns (i: nat)
    ensures LastBadEdge(history).None? ==> forall j :: 0 <= j < |history| ==> !MakesBad(history, j)
    ensures LastBadEdge(history).Some? ==>
      && i < |history| && MakesBad(history, i) && LastBadEdge(history) == history[i].result.edge
      && forall j :: i < j < |history| ==> !MakesBad(history, j)
  {
    i := 0;
    if history != [] {
      SwitchesIff(history);
      var front := history[..|history| - 1];
      i := LastBadEdgeIs(front);
      forall j | 0 <= j < |front|
        ensures MakesBad(history, j) <==> MakesBad(front, j)
      {
        assert forall k :: 0 <= k <= j ==> history[k] == front[k];
      }
      if Switches(history) {
        i := |history| - 1;
      }
      hide Switches, MakesBad;
    }
  }
}
