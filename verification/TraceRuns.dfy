// Traces that arrive at any point of a report: what is acknowledged, in flight and
// buffered, against the history of everything traced.
module TraceRuns {
  import opened Sequences
  import opened Wrappers
  import opened Tracer

  // One source. `acknowledged` is what the SFU answered that it took (TraceDelivery adds
  // what it took without an answer), `inflight` what the running report has taken;
  // `overflowed` and `lost` remember that a cap dropped entries, or that a report was
  // dropped with entries in flight.
  datatype Lane = Lane(
    id: Option<string>, max: nat,
    history: seq<TraceRecord>, acknowledged: seq<TraceRecord>, inflight: seq<TraceRecord>, buffer: seq<TraceRecord>,
    overflowed: bool, lost: bool)

  // ---- One source ------------------------------------------------------------------------

  function Recorded(l: Lane, r: TraceRecord, now: i64): Lane
    requires l.max > 0
  {
    l.(history := l.history + [r], buffer := Capped(l.buffer + [r], l.max, l.id, now),
       overflowed := l.overflowed || |l.buffer| + 1 > l.max)
  }

  function Taken(l: Lane): Lane {
    l.(inflight := l.buffer, buffer := [])
  }

  function Accepted(l: Lane): Lane {
    l.(acknowledged := l.acknowledged + l.inflight, inflight := [])
  }

  function GivenBack(l: Lane, now: i64): Lane
    requires l.max > 0
  {
    l.(inflight := [], buffer := Restored(l.buffer, l.inflight, l.max, l.id, now),
       overflowed := l.overflowed || (l.inflight != [] && |l.inflight| + |l.buffer| > l.max))
  }

  function Aborted(l: Lane): Lane {
    l.(inflight := [], lost := l.lost || l.inflight != [])
  }

  // The records of `s`, without the breadcrumbs.
  function Plain(s: seq<TraceRecord>): seq<TraceRecord> {
    if s == [] then []
    else Plain(s[..|s| - 1]) + (if IsCrumb(s[|s| - 1]) then [] else [s[|s| - 1]])
  }

  lemma {:induction false} PlainConcat(a: seq<TraceRecord>, b: seq<TraceRecord>)
    ensures Plain(a + b) == Plain(a) + Plain(b)
  {
    if b == [] {
      assert a + b == a;
    } else {
      assert (a + b)[..|a + b| - 1] == a + b[..|b| - 1];
      PlainConcat(a, b[..|b| - 1]);
    }
  }

  ghost predicate AllPlain(s: seq<TraceRecord>) {
    forall i :: 0 <= i < |s| ==> !IsCrumb(s[i])
  }

  lemma {:induction false} PlainIsAll(s: seq<TraceRecord>)
    requires AllPlain(s)
    ensures Plain(s) == s
  {
    if s != [] {
      PlainIsAll(s[..|s| - 1]);
    }
  }

  // `a` is left of `b` when some entries are dropped.
  ghost predicate Subsequence<T>(a: seq<T>, b: seq<T>) {
    a == [] ||
    (b != [] &&
     ((a[|a| - 1] == b[|b| - 1] && Subsequence(a[..|a| - 1], b[..|b| - 1])) || Subsequence(a, b[..|b| - 1])))
  }

  lemma {:induction false} SubsequencePush<T>(a: seq<T>, b: seq<T>, x: T)
    requires Subsequence(a, b)
    ensures Subsequence(a + [x], b + [x]) && Subsequence(a, b + [x])
  {
    assert (a + [x])[..|a|] == a && (b + [x])[..|b|] == b;
  }

  lemma {:induction false} SubsequenceDrop<T>(a: seq<T>, b: seq<T>, lo: nat, hi: nat)
    requires lo <= hi <= |a| && Subsequence(a, b)
    ensures Subsequence(a[..lo] + a[hi..], b)
    decreases |b|
  {
    var less := a[..lo] + a[hi..];
    if a == [] || lo == hi {
      assert less == a;
    } else {
      var shorter := b[..|b| - 1];
      if a[|a| - 1] == b[|b| - 1] && Subsequence(a[..|a| - 1], shorter) {
        var front := a[..|a| - 1];
        if hi < |a| {
          SubsequenceDrop(front, shorter, lo, hi);
          assert less[..|less| - 1] == front[..lo] + front[hi..];
        } else {
          SubsequenceDrop(front, shorter, lo, |front|);
          assert less == front[..lo] + front[|front|..];
          if less != [] {
            SubsequenceSkip(less, shorter, b[|b| - 1]);
            assert shorter + [b[|b| - 1]] == b;
          }
        }
      } else {
        SubsequenceDrop(a, shorter, lo, hi);
        SubsequenceSkip(less, shorter, b[|b| - 1]);
        assert shorter + [b[|b| - 1]] == b;
      }
    }
  }

  lemma SubsequenceSkip<T>(a: seq<T>, b: seq<T>, x: T)
    requires Subsequence(a, b)
    ensures Subsequence(a, b + [x])
  {
    SubsequencePush(a, b, x);
  }

  // A breadcrumb stands at the front of a full buffer, and nowhere else.
  ghost predicate Neat(s: seq<TraceRecord>, max: nat) {
    && |s| <= max
    && (s != [] ==> AllPlain(s[1..]) && (IsCrumb(s[0]) ==> |s| == max))
  }

  function Content(l: Lane): seq<TraceRecord> {
    l.acknowledged + l.inflight + l.buffer
  }

  predicate EndsWith<T(==)>(s: seq<T>, tail: seq<T>) {
    |tail| <= |s| && s[|s| - |tail|..] == tail
  }

  // The newest `n` records.
  function Newest<T>(s: seq<T>, n: nat): seq<T> {
    s[|s| - Min(n, |s|)..]
  }

  ghost predicate Sound(l: Lane) {
    && l.max > 0 && AllPlain(l.history) && Neat(l.buffer, l.max) && Neat(l.inflight, l.max)
    && Faithful(l)
    && Counted(l)
  }

  ghost predicate Faithful(l: Lane)
    requires l.max > 0
  {
    FaithfulTo(Content(l), l.history, l.max - 1, l.lost)
  }

  // The records of `content` are in the order of `history`, and unless some were
  // lost they end with the newest `n`.
  ghost predicate FaithfulTo(content: seq<TraceRecord>, history: seq<TraceRecord>, n: nat, lost: bool) {
    && Subsequence(Plain(content), history)
    && (!lost ==> EndsWith(Plain(content), Newest(history, n)))
  }

  ghost predicate Counted(l: Lane) {
    CountedTo(Content(l), l.history, l.max, l.overflowed, l.lost)
  }

  // Nothing is missing while nothing was dropped, and a short history drops nothing.
  ghost predicate CountedTo(
      content: seq<TraceRecord>, history: seq<TraceRecord>, max: nat, overflowed: bool, lost: bool) {
    && (!lost && !overflowed ==> content == history)
    && (|history| <= max ==> !overflowed && |content| <= |history|)
  }

  lemma EndsPush<T>(w: seq<T>, tail: seq<T>, r: T)
    requires EndsWith(w, tail)
    ensures EndsWith(w + [r], tail + [r])
  {
    assert (w + [r])[|w| - |tail|..] == w[|w| - |tail|..] + [r];
  }

  lemma EndsShorter<T>(w: seq<T>, tail: seq<T>, k: nat)
    requires EndsWith(w, tail) && k <= |tail|
    ensures EndsWith(w, tail[k..])
  {
    assert w[|w| - |tail|..][k..] == w[|w| - |tail[k..]|..];
  }

  lemma NewestPush<T>(history: seq<T>, n: nat, r: T)
    ensures Newest(history + [r], n + 1) == Newest(history, n) + [r]
  {
  }

  lemma NewestShorter<T>(history: seq<T>, n: nat)
    ensures Newest(history, n) == Newest(history, n + 1)[|Newest(history, n + 1)| - |Newest(history, n)|..]
  {
  }

  // Appending the newest record to both sides.
  lemma PushKeeps<T>(w: seq<T>, history: seq<T>, n: nat, r: T)
    requires EndsWith(w, Newest(history, n))
    ensures EndsWith(w + [r], Newest(history + [r], n))
  {
    EndsPush(w, Newest(history, n), r);
    NewestPush(history, n, r);
    NewestShorter(history + [r], n);
    var more := Newest(history + [r], n + 1);
    assert |Newest(history + [r], n)| <= |more|;
    hide EndsWith, Newest;
    EndsShorter(w + [r], more, |more| - |Newest(history + [r], n)|);
  }

  // Dropping `middle` leaves a subsequence, and an ending that fits in `tail`.
  lemma DropMiddle<T>(prefix: seq<T>, middle: seq<T>, tail: seq<T>, history: seq<T>, newest: seq<T>)
    requires Subsequence(prefix + middle + tail, history)
    ensures Subsequence(prefix + tail, history)
    ensures |newest| <= |tail| && EndsWith(prefix + middle + tail, newest) ==> EndsWith(prefix + tail, newest)
  {
    var w := prefix + middle + tail;
    assert w[..|prefix|] == prefix && w[|prefix| + |middle|..] == tail;
    SubsequenceDrop(w, history, |prefix|, |prefix| + |middle|);
    if |newest| <= |tail| && EndsWith(w, newest) {
      assert w[|w| - |newest|..] == tail[|tail| - |newest|..];
      assert (prefix + tail)[|prefix + tail| - |newest|..] == tail[|tail| - |newest|..];
    }
  }

  lemma PlainParts(prefix: seq<TraceRecord>, middle: seq<TraceRecord>, tail: seq<TraceRecord>)
    requires AllPlain(tail)
    ensures Plain(prefix + (middle + tail)) == Plain(prefix) + Plain(middle) + tail
  {
    PlainIsAll(tail);
    PlainConcat(prefix, middle + tail);
    PlainConcat(middle, tail);
    hide Plain, AllPlain;
    ConcatIsAssociative(Plain(prefix), Plain(middle), tail);
  }

  lemma PlainCapped(prefix: seq<TraceRecord>, s: seq<TraceRecord>, max: nat, id: Option<string>, now: i64)
    requires 0 < max < |s| && AllPlain(s[|s| - (max - 1)..])
    ensures var cut := |s| - (max - 1);
      && Plain(prefix + s) == Plain(prefix) + Plain(s[..cut]) + s[cut..]
      && Plain(prefix + Capped(s, max, id, now)) == Plain(prefix) + s[cut..]
  {
    var cut := |s| - (max - 1);
    var tail, crumb := s[cut..], [Crumb(id, |s| - max, now)];
    assert Plain(crumb) == [] by {
      assert crumb[..0] == [];
    }
    assert s == s[..cut] + tail;
    hide Plain, AllPlain;
    PlainParts(prefix, s[..cut], tail);
    PlainParts(prefix, crumb, tail);
    AppendNothing(Plain(prefix));
  }

  lemma CappedIsNeat(s: seq<TraceRecord>, max: nat, id: Option<string>, now: i64)
    requires 0 < max < |s| && AllPlain(s[|s| - (max - 1)..])
    ensures Neat(Capped(s, max, id, now), max)
  {
    assert Capped(s, max, id, now)[1..] == s[|s| - (max - 1)..];
  }

  lemma DropKeepsFaithful(content: seq<TraceRecord>, less: seq<TraceRecord>,
                          prefix: seq<TraceRecord>, middle: seq<TraceRecord>, tail: seq<TraceRecord>,
                          history: seq<TraceRecord>, n: nat, lost: bool)
    requires Plain(content) == prefix + middle + tail && Plain(less) == prefix + tail
    requires lost || n <= |tail|
    requires FaithfulTo(content, history, n, lost)
    ensures FaithfulTo(less, history, n, lost)
  {
    assert |Newest(history, n)| <= n;
    hide Subsequence, Plain, EndsWith, Newest;
    DropMiddle(prefix, middle, tail, history, Newest(history, n));
  }

  // A cap that drops something keeps the records in order, and the newest ones.
  lemma CapKeeps(prefix: seq<TraceRecord>, s: seq<TraceRecord>, max: nat, id: Option<string>, now: i64,
                 history: seq<TraceRecord>, lost: bool)
    requires 0 < max < |s| && AllPlain(s[|s| - (max - 1)..])
    requires FaithfulTo(prefix + s, history, max - 1, lost)
    ensures FaithfulTo(prefix + Capped(s, max, id, now), history, max - 1, lost)
  {
    hide Plain, AllPlain, FaithfulTo, Capped;
    PlainCapped(prefix, s, max, id, now);
    var cut := |s| - (max - 1);
    DropKeepsFaithful(prefix + s, prefix + Capped(s, max, id, now),
                      Plain(prefix), Plain(s[..cut]), s[cut..], history, max - 1, lost);
  }

  // What may go under the cap.
  ghost predicate Cappable(s: seq<TraceRecord>, max: nat)
    requires max > 0
  {
    if |s| <= max then Neat(s, max) else AllPlain(s[|s| - (max - 1)..])
  }

  lemma CapKeepsAll(prefix: seq<TraceRecord>, s: seq<TraceRecord>, max: nat, id: Option<string>, now: i64,
                    history: seq<TraceRecord>, lost: bool)
    requires max > 0 && Cappable(s, max) && FaithfulTo(prefix + s, history, max - 1, lost)
    ensures FaithfulTo(prefix + Capped(s, max, id, now), history, max - 1, lost)
    ensures Neat(Capped(s, max, id, now), max)
  {
    hide Neat, AllPlain, FaithfulTo;
    if |s| > max {
      CapKeeps(prefix, s, max, id, now, history, lost);
      CappedIsNeat(s, max, id, now);
    }
  }

  lemma PlainOne(r: TraceRecord)
    requires !IsCrumb(r)
    ensures Plain([r]) == [r]
  {
    assert [r][..0] == [];
  }

  // Appending a record, before the cap.
  lemma RecordedBeforeCap(l: Lane, r: TraceRecord)
    requires Sound(l) && !IsCrumb(r)
    ensures FaithfulTo(l.acknowledged + l.inflight + (l.buffer + [r]), l.history + [r], l.max - 1, l.lost)
  {
    PlainOne(r);
    hide Subsequence, Plain, EndsWith, Newest, AllPlain, Neat, Counted;
    ConcatIsAssociative(l.acknowledged + l.inflight, l.buffer, [r]);
    PlainConcat(Content(l), [r]);
    SubsequencePush(Plain(Content(l)), l.history, r);
    if !l.lost {
      PushKeeps(Plain(Content(l)), l.history, l.max - 1, r);
    }
  }

  lemma RecordedIsNeat(l: Lane, r: TraceRecord)
    requires Sound(l) && !IsCrumb(r)
    ensures Cappable(l.buffer + [r], l.max)
  {
    hide Subsequence, Plain, EndsWith, Newest, Content;
    assert (l.buffer + [r])[1..] == if l.buffer == [] then [] else l.buffer[1..] + [r];
  }

  lemma RecordedIsCounted(l: Lane, r: TraceRecord, now: i64)
    requires Counted(l) && l.max > 0
    ensures Counted(Recorded(l, r, now))
  {
    var m := Recorded(l, r, now);
    if !m.overflowed {
      assert Content(m) == Content(l) + [r];
    }
    assert |Content(l)| >= |l.buffer|;
  }

  lemma GivenBackIsCounted(l: Lane, now: i64)
    requires Counted(l) && l.max > 0
    ensures Counted(GivenBack(l, now))
  {
    var m := GivenBack(l, now);
    if !m.overflowed {
      assert Content(m) == Content(l);
    }
    assert |Content(l)| >= |l.inflight| + |l.buffer|;
  }

  lemma RecordedIsFaithful(l: Lane, r: TraceRecord, now: i64)
    requires Sound(l) && !IsCrumb(r)
    ensures Faithful(Recorded(l, r, now)) && Neat(Recorded(l, r, now).buffer, l.max)
  {
    RecordedBeforeCap(l, r);
    RecordedIsNeat(l, r);
    hide FaithfulTo, Neat, CountedTo, AllPlain, Capped, Cappable;
    CapKeepsAll(l.acknowledged + l.inflight, l.buffer + [r], l.max, l.id, now, l.history + [r], l.lost);
  }

  lemma RecordedKeeps(l: Lane, r: TraceRecord, now: i64)
    requires Sound(l) && !IsCrumb(r)
    ensures Sound(Recorded(l, r, now))
  {
    hide FaithfulTo, Neat, CountedTo, Capped, Content, Faithful, Counted;
    RecordedIsFaithful(l, r, now);
    RecordedIsCounted(l, r, now);
    assert AllPlain(l.history + [r]);
    hide AllPlain;
  }

  lemma TakenKeeps(l: Lane)
    requires Sound(l) && l.inflight == []
    ensures Sound(Taken(l))
  {
    assert Neat([], l.max);
    hide FaithfulTo, CountedTo, Neat, AllPlain;
    AppendNothing(l.acknowledged);
    AppendNothing(l.acknowledged + l.buffer);
  }

  lemma AcceptedKeeps(l: Lane)
    requires Sound(l)
    ensures Sound(Accepted(l))
  {
    assert Neat([], l.max);
    AppendNothing(l.acknowledged + l.inflight);
    assert Content(Accepted(l)) == Content(l);
    hide FaithfulTo, CountedTo, Neat, AllPlain, Content;
  }

  // A full buffer with a breadcrumb pushes every returned entry out, so what a cap
  // keeps has none in it.
  lemma GivenBackIsNeat(l: Lane)
    requires Sound(l)
    ensures Cappable(l.inflight + l.buffer, l.max)
  {
    hide Subsequence, Plain, EndsWith, Newest, Content;
    var s := l.inflight + l.buffer;
    if l.inflight == [] {
      assert s == l.buffer;
    } else if l.buffer == [] {
      assert s == l.inflight;
    } else if |s| > l.max {
      forall i | |s| - (l.max - 1) <= i < |s|
        ensures !IsCrumb(s[i])
      {
        if i < |l.inflight| {
          assert s[i] == l.inflight[1..][i - 1];
        } else if i > |l.inflight| {
          assert s[i] == l.buffer[1..][i - |l.inflight| - 1];
        }
      }
    } else {
      forall i | 0 <= i < |s|
        ensures !IsCrumb(s[i])
      {
        if 0 < i < |l.inflight| {
          assert s[i] == l.inflight[1..][i - 1];
        } else if i > |l.inflight| {
          assert s[i] == l.buffer[1..][i - |l.inflight| - 1];
        }
      }
    }
  }

  lemma GivenBackIsFaithful(l: Lane, now: i64)
    requires Sound(l)
    ensures Faithful(GivenBack(l, now)) && Neat(GivenBack(l, now).buffer, l.max)
  {
    GivenBackIsNeat(l);
    hide FaithfulTo, Neat, CountedTo, AllPlain, Capped, Cappable;
    if l.inflight != [] {
      ConcatIsAssociative(l.acknowledged, l.inflight, l.buffer);
      AppendNothing(l.acknowledged);
      CapKeepsAll(l.acknowledged, l.inflight + l.buffer, l.max, l.id, now, l.history, l.lost);
    }
  }

  lemma GivenBackKeeps(l: Lane, now: i64)
    requires Sound(l)
    ensures Sound(GivenBack(l, now))
  {
    GivenBackIsFaithful(l, now);
    GivenBackIsCounted(l, now);
    assert Neat([], l.max);
    hide FaithfulTo, Neat, CountedTo, AllPlain, Restored;
  }

  lemma AbortedKeeps(l: Lane)
    requires Sound(l)
    ensures Sound(Aborted(l))
  {
    if l.inflight != [] {
      PlainConcat(l.acknowledged + l.inflight, l.buffer);
      PlainConcat(l.acknowledged, l.inflight);
      PlainConcat(l.acknowledged, l.buffer);
      AppendNothing(l.acknowledged);
      assert Neat([], l.max);
      hide Subsequence, Plain, EndsWith, Newest, Neat, AllPlain;
      DropMiddle(Plain(l.acknowledged), Plain(l.inflight), Plain(l.buffer), l.history, []);
    }
  }

  // ---- What a cap or a dropped report loses ---------------------------------------------------

  // Fewer records than were traced, once something was dropped; and no breadcrumb
  // before that.
  ghost predicate Accounted(l: Lane) {
    AccountedTo(Content(l), l.history, l.overflowed, l.lost)
  }

  ghost predicate AccountedTo(content: seq<TraceRecord>, history: seq<TraceRecord>, overflowed: bool, lost: bool) {
    && |Plain(content)| <= |history|
    && (overflowed || lost ==> |Plain(content)| < |history|)
    && (!overflowed ==> AllPlain(content))
  }

  lemma PlainPrefix(s: seq<TraceRecord>, n: nat)
    requires 0 < n <= |s| && AllPlain(s)
    ensures |Plain(s[..n])| == n
  {
    PlainIsAll(s[..n]);
  }

  lemma CapDrops(prefix: seq<TraceRecord>, s: seq<TraceRecord>, max: nat, id: Option<string>, now: i64)
    requires 0 < max < |s| && AllPlain(s[|s| - (max - 1)..])
    ensures |Plain(prefix + Capped(s, max, id, now))| <= |Plain(prefix + s)|
    ensures AllPlain(prefix + s) ==> |Plain(prefix + Capped(s, max, id, now))| < |Plain(prefix + s)|
  {
    var cut := |s| - (max - 1);
    PlainCapped(prefix, s, max, id, now);
    if AllPlain(prefix + s) {
      assert AllPlain(s) by {
        assert forall i :: 0 <= i < |s| ==> s[i] == (prefix + s)[|prefix| + i];
      }
      PlainPrefix(s, cut);
    }
    hide Plain, Capped, AllPlain;
  }

  lemma CapAccounts(prefix: seq<TraceRecord>, s: seq<TraceRecord>, max: nat, id: Option<string>, now: i64,
                    history: seq<TraceRecord>, overflowed: bool, lost: bool)
    requires max > 0 && Cappable(s, max) && AccountedTo(prefix + s, history, overflowed, lost)
    ensures AccountedTo(prefix + Capped(s, max, id, now), history, overflowed || |s| > max, lost)
  {
    if |s| > max {
      CapDrops(prefix, s, max, id, now);
    }
    hide Plain, AllPlain;
  }

  lemma PushAccounts(content: seq<TraceRecord>, history: seq<TraceRecord>, overflowed: bool, lost: bool, r: TraceRecord)
    requires AccountedTo(content, history, overflowed, lost) && !IsCrumb(r)
    ensures AccountedTo(content + [r], history + [r], overflowed, lost)
  {
    PlainOne(r);
    PlainConcat(content, [r]);
    hide Plain;
  }

  lemma RecordedAccounts(l: Lane, r: TraceRecord, now: i64)
    requires Sound(l) && Accounted(l) && !IsCrumb(r)
    ensures Accounted(Recorded(l, r, now))
  {
    RecordedIsNeat(l, r);
    hide Sound, AccountedTo, Cappable, Capped;
    PushAccounts(Content(l), l.history, l.overflowed, l.lost, r);
    ConcatIsAssociative(l.acknowledged + l.inflight, l.buffer, [r]);
    CapAccounts(l.acknowledged + l.inflight, l.buffer + [r], l.max, l.id, now, l.history + [r], l.overflowed, l.lost);
  }

  lemma GivenBackAccounts(l: Lane, now: i64)
    requires Sound(l) && Accounted(l)
    ensures Accounted(GivenBack(l, now))
  {
    GivenBackIsNeat(l);
    hide Sound, AccountedTo, Cappable, Capped;
    if l.inflight != [] {
      ConcatIsAssociative(l.acknowledged, l.inflight, l.buffer);
      AppendNothing(l.acknowledged);
      CapAccounts(l.acknowledged, l.inflight + l.buffer, l.max, l.id, now, l.history, l.overflowed, l.lost);
    }
  }

  lemma TakenAccounts(l: Lane)
    requires Accounted(l) && l.inflight == []
    ensures Accounted(Taken(l))
  {
    hide AccountedTo;
    AppendNothing(l.acknowledged);
    AppendNothing(l.acknowledged + l.buffer);
  }

  lemma AcceptedAccounts(l: Lane)
    requires Accounted(l)
    ensures Accounted(Accepted(l))
  {
    hide AccountedTo;
    AppendNothing(l.acknowledged + l.inflight);
  }

  lemma AbortedAccounts(l: Lane)
    requires Accounted(l)
    ensures Accounted(Aborted(l))
  {
    if l.inflight != [] {
      var d, i, b := l.acknowledged, l.inflight, l.buffer;
      PlainConcat(d + i, b);
      PlainConcat(d, i);
      PlainConcat(d, b);
      AppendNothing(d);
      if AllPlain(d + i + b) {
        PlainPart(d, i, b);
      }
      hide Plain, AllPlain;
    }
  }

  lemma PlainPart(d: seq<TraceRecord>, i: seq<TraceRecord>, b: seq<TraceRecord>)
    requires AllPlain(d + i + b)
    ensures Plain(i) == i && AllPlain(d + b)
  {
    assert forall k :: 0 <= k < |i| ==> i[k] == (d + i + b)[|d| + k];
    assert forall k :: 0 <= k < |d| ==> d[k] == (d + i + b)[k];
    assert forall k :: 0 <= k < |b| ==> b[k] == (d + i + b)[|d| + |i| + k];
    PlainIsAll(i);
  }

  // ---- The three sources and the reporter ----------------------------------------------------

  // Where the one running report is: `send_lock` admits no second one. It takes
  // lane 0, 1, 2 (signal, publisher, subscriber) and gives back 2, 1, 0.
  datatype Phase = Idle | Taking(next: nat) | Sending | Restoring(next: nat)

  datatype System = System(lanes: seq<Lane>, phase: Phase)

  datatype Event =
    | Trace(source: nat, tag: string, text: string, now: i64)
    | Start
    | TakeNext
    | SendSucceeded
    | SendFailed
    | RestoreNext(at: i64)
    | ReportDropped

  ghost predicate Shape(s: System) {
    && |s.lanes| == 3
    && (forall i :: 0 <= i < 3 ==> s.lanes[i].max > 0)
    && (s.phase.Taking? || s.phase.Restoring? ==> s.phase.next < 3)
  }

  ghost predicate Started(s: System) {
    && Shape(s) && s.phase == Idle
    && forall i :: 0 <= i < 3 ==>
      s.lanes[i] == Lane(s.lanes[i].id, s.lanes[i].max, [], [], [], [], false, false)
  }

  ghost predicate Inv(s: System) {
    && Shape(s)
    && (forall i :: 0 <= i < 3 ==> Sound(s.lanes[i]) && Accounted(s.lanes[i]))
    && (forall i :: 0 <= i < 3 ==> s.lanes[i].inflight != [] ==> MayHold(s.phase, i))
  }

  // The lanes whose entries the report can be holding.
  predicate MayHold(phase: Phase, i: nat) {
    match phase
    case Idle => false
    case Taking(next) => i < next
    case Sending => true
    case Restoring(next) => i <= next
  }

  // One step; an event that cannot happen now changes nothing.
  ghost function After(s: System, e: Event): (r: System)
    requires Shape(s)
    ensures Shape(r)
  {
    match e
    case Trace(source, tag, text, now) =>
      if source >= 3 then s
      else
        var l := s.lanes[source];
        s.(lanes := s.lanes[source := Recorded(l, TraceRecord(tag, l.id, Json(text), now), now)])
    case Start => if s.phase.Idle? then s.(phase := Taking(0)) else s
    case TakeNext =>
      if !s.phase.Taking? then s
      else
        System(s.lanes[s.phase.next := Taken(s.lanes[s.phase.next])],
               if s.phase.next == 2 then Sending else Taking(s.phase.next + 1))
    case SendSucceeded =>
      if !s.phase.Sending? then s
      else System([Accepted(s.lanes[0]), Accepted(s.lanes[1]), Accepted(s.lanes[2])], Idle)
    case SendFailed => if s.phase.Sending? then s.(phase := Restoring(2)) else s
    case RestoreNext(at) =>
      if !s.phase.Restoring? then s
      else
        System(s.lanes[s.phase.next := GivenBack(s.lanes[s.phase.next], at)],
               if s.phase.next == 0 then Idle else Restoring(s.phase.next - 1))
    case ReportDropped => System([Aborted(s.lanes[0]), Aborted(s.lanes[1]), Aborted(s.lanes[2])], Idle)
  }

  lemma LaneStepAccounts(s: System, e: Event, i: nat)
    requires Inv(s) && i < 3
    ensures Accounted(After(s, e).lanes[i])
  {
    hide Sound, Accounted, Recorded, Taken, Accepted, GivenBack, Aborted;
    match e {
      case Trace(source, tag, text, now) =>
        RecordedAccounts(s.lanes[i], TraceRecord(tag, s.lanes[i].id, Json(text), now), now);
      case TakeNext =>
        if s.phase == Taking(i) {
          TakenAccounts(s.lanes[i]);
        }
      case SendSucceeded =>
        AcceptedAccounts(s.lanes[i]);
      case RestoreNext(at) =>
        GivenBackAccounts(s.lanes[i], at);
      case ReportDropped =>
        AbortedAccounts(s.lanes[i]);
      case Start =>
      case SendFailed =>
    }
  }

  lemma LaneStepKeeps(s: System, e: Event, i: nat)
    requires Inv(s) && i < 3
    ensures Sound(After(s, e).lanes[i])
  {
    hide Sound, Accounted, Recorded, Taken, Accepted, GivenBack, Aborted;
    match e {
      case Trace(source, tag, text, now) =>
        RecordedKeeps(s.lanes[i], TraceRecord(tag, s.lanes[i].id, Json(text), now), now);
      case TakeNext =>
        if s.phase == Taking(i) {
          TakenKeeps(s.lanes[i]);
        }
      case SendSucceeded =>
        AcceptedKeeps(s.lanes[i]);
      case RestoreNext(at) =>
        GivenBackKeeps(s.lanes[i], at);
      case ReportDropped =>
        AbortedKeeps(s.lanes[i]);
      case Start =>
      case SendFailed =>
    }
  }

  lemma HoldingKeeps(s: System, e: Event)
    requires Inv(s)
    ensures forall i :: 0 <= i < 3 ==> After(s, e).lanes[i].inflight != [] ==> MayHold(After(s, e).phase, i)
  {
    hide Sound, Accounted, Capped, Restored;
  }

  lemma StepKeepsInv(s: System, e: Event)
    requires Inv(s)
    ensures Inv(After(s, e))
  {
    forall i | 0 <= i < 3
      ensures Sound(After(s, e).lanes[i]) && Accounted(After(s, e).lanes[i])
    {
      LaneStepKeeps(s, e, i);
      LaneStepAccounts(s, e, i);
    }
    HoldingKeeps(s, e);
    hide Sound, Accounted, After, MayHold;
  }

  ghost function Run(s: System, events: seq<Event>): (r: System)
    requires Shape(s)
    ensures Shape(r)
    decreases |events|
  {
    if events == [] then s else Run(After(s, events[0]), events[1..])
  }

  lemma {:induction false} RunKeepsInv(s: System, events: seq<Event>)
    requires Inv(s)
    ensures Inv(Run(s, events))
    decreases |events|
  {
    if events != [] {
      StepKeepsInv(s, events[0]);
      hide Inv, After;
      RunKeepsInv(After(s, events[0]), events[1..]);
    }
  }

  lemma StartedIsSound(s: System)
    requires Started(s)
    ensures Inv(s)
  {
    forall i | 0 <= i < 3
      ensures Sound(s.lanes[i]) && Accounted(s.lanes[i])
    {
      assert Content(s.lanes[i]) == [];
    }
  }

  // ---- What holds of every run ------------------------------------------------------------------

  // Everything traced is acknowledged, in flight or buffered, exactly once and in order,
  // exactly while no buffer overflowed and no report was dropped with entries in flight.
  lemma NothingIsLost(s: System, events: seq<Event>, i: nat)
    requires Started(s) && i < 3
    ensures var l := Run(s, events).lanes[i];
      l.acknowledged + l.inflight + l.buffer == l.history <==> !l.overflowed && !l.lost
  {
    StartedIsSound(s);
    RunKeepsInv(s, events);
    var l := Run(s, events).lanes[i];
    PlainIsAll(l.history);
    hide Plain, Run;
  }

  // A source that traced no more than its bound has not overflowed.
  lemma FewNeverOverflow(s: System, events: seq<Event>, i: nat)
    requires Started(s) && i < 3
    ensures var l := Run(s, events).lanes[i];
      |l.history| <= l.max ==> !l.overflowed
  {
    StartedIsSound(s);
    RunKeepsInv(s, events);
  }

  // Whatever overflows or is dropped: the buffer keeps its bound, what is left is in
  // order and without duplicates, and unless a report was dropped the newest records
  // up to one less than the bound are all there.
  lemma NewestSurvive(s: System, events: seq<Event>, i: nat)
    requires Started(s) && i < 3
    ensures var l := Run(s, events).lanes[i];
      && |l.buffer| <= l.max
      && Subsequence(Plain(l.acknowledged + l.inflight + l.buffer), l.history)
      && (!l.lost ==> EndsWith(Plain(l.acknowledged + l.inflight + l.buffer), Newest(l.history, l.max - 1)))
  {
    StartedIsSound(s);
    RunKeepsInv(s, events);
  }
}
