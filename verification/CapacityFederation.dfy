/** Whether a server that comes back after an outage is given what it missed: once, in order, and all of it. */
module CapacityFederation {
  import opened Wrappers

  // ---------------------------------------------------------------- first occurrences

  /** The expected ids in a stream of events, in order; an event may have no usable id. */
  function Restrict(stream: seq<Option<string>>, expected: set<string>): seq<string> {
    if stream == [] then []
    else
      var last := stream[|stream| - 1];
      Restrict(stream[..|stream| - 1], expected) + if last.Some? && last.value in expected then [last.value] else []
  }

  /** The first occurrences in a list, in order. */
  function Firsts(ids: seq<string>): seq<string> {
    if ids == [] then []
    else
      var before, last := ids[..|ids| - 1], ids[|ids| - 1];
      Firsts(before) + if last in before then [] else [last]
  }

  /** All other occurrences. */
  function Repeats(ids: seq<string>): seq<string> {
    if ids == [] then []
    else
      var before, last := ids[..|ids| - 1], ids[|ids| - 1];
      Repeats(before) + if last in before then [last] else []
  }

  predicate Distinct(ids: seq<string>) {
    forall i, j :: 0 <= i < j < |ids| ==> ids[i] != ids[j]
  }

  function Members(ids: seq<string>): set<string> {
    set id | id in ids
  }

  lemma FirstsOfNext(ids: seq<string>, id: string)
    ensures Firsts(ids + [id]) == Firsts(ids) + if id in ids then [] else [id]
    ensures Repeats(ids + [id]) == Repeats(ids) + if id in ids then [id] else []
  {
    assert (ids + [id])[..|ids|] == ids;
  }

  /** The first occurrences are the members, each once; with the repeats they make up the list. */
  lemma {:induction false} FirstsAreMembers(ids: seq<string>)
    ensures (forall id :: id in Firsts(ids) <==> id in ids) && Distinct(Firsts(ids))
    ensures multiset(Firsts(ids)) + multiset(Repeats(ids)) == multiset(ids)
    ensures |Firsts(ids)| + |Repeats(ids)| == |ids|
  {
    if ids != [] {
      var before, last := ids[..|ids| - 1], ids[|ids| - 1];
      FirstsAreMembers(before);
      assert ids == before + [last];
    }
  }

  /** The first occurrences stand in the order of their first positions. */
  lemma {:induction false} FirstsInOrder(ids: seq<string>, at: seq<nat>)
    requires |at| == |Firsts(ids)|
    requires forall k :: 0 <= k < |at| ==> at[k] < |ids| && ids[at[k]] == Firsts(ids)[k] && ids[at[k]] !in ids[..at[k]]
    ensures forall j, k :: 0 <= j < k < |at| ==> at[j] < at[k]
  {
    if ids != [] {
      var n := |ids| - 1;
      var before, last := ids[..n], ids[n];
      FirstsAreMembers(before);
      var m := |Firsts(before)|;
      forall k | 0 <= k < m
        ensures at[k] < n && before[at[k]] == Firsts(before)[k] && before[at[k]] !in before[..at[k]]
      {
        FirstIsEarlier(ids, n, at[k], Firsts(before)[k]);
      }
      FirstsInOrder(before, at[..m]);
      assert forall j, k :: 0 <= j < k < m ==> at[..m][j] < at[..m][k];
    }
  }

  lemma FirstIsEarlier(ids: seq<string>, n: nat, p: nat, id: string)
    requires n == |ids| - 1 && p <= n && ids[p] == id && id !in ids[..p] && id in ids[..n]
    ensures p < n && ids[..n][p] == id && ids[..n][..p] == ids[..p]
  {
  }

  lemma DistinctNext(before: seq<string>, last: string)
    ensures Distinct(before + [last]) <==> Distinct(before) && last !in before
  {
    var ids := before + [last];
    if Distinct(ids) {
      assert forall i, j :: 0 <= i < j < |before| ==> before[i] == ids[i] && before[j] == ids[j];
      assert forall i :: 0 <= i < |before| ==> before[i] == ids[i] != ids[|before|];
    }
  }

  /** A list has no repeats exactly when it is distinct, and then it is its own first occurrences. */
  lemma {:induction false} NoRepeats(ids: seq<string>)
    ensures Repeats(ids) == [] <==> Distinct(ids)
    ensures Repeats(ids) == [] <==> Firsts(ids) == ids
  {
    FirstsAreMembers(ids);
    if ids != [] {
      var before, last := ids[..|ids| - 1], ids[|ids| - 1];
      assert ids == before + [last];
      NoRepeats(before);
      DistinctNext(before, last);
    }
  }

  // ---------------------------------------------------------------- waiting

  lemma RestrictNext(stream: seq<Option<string>>, event: Option<string>, expected: set<string>)
    ensures Restrict(stream + [event], expected)
         == Restrict(stream, expected) + if event.Some? && event.value in expected then [event.value] else []
  {
    assert (stream + [event])[..|stream|] == stream;
  }

  /** What was received in the first batches: the expected ids, in order. */
  function Received(expected: seq<string>, batches: seq<seq<Option<string>>>): seq<string>
    decreases |batches|, 1
  {
    if batches == [] then [] else ReceivedWithLast(expected, batches)
  }

  function ReceivedWithLast(expected: seq<string>, batches: seq<seq<Option<string>>>): seq<string>
    requires batches != []
    decreases |batches|, 0
  {
    Received(expected, batches[..|batches| - 1]) + Restrict(batches[|batches| - 1], Members(expected))
  }

  lemma ReceivedNext(expected: seq<string>, batches: seq<seq<Option<string>>>, k: nat)
    requires k < |batches|
    ensures Received(expected, batches[..k + 1])
         == Received(expected, batches[..k]) + Restrict(batches[k], Members(expected))
  {
    assert batches[..k + 1][..k] == batches[..k];
    assert Received(expected, batches[..k + 1]) == ReceivedWithLast(expected, batches[..k + 1]);
  }

  lemma RestrictOne(event: Option<string>, expected: set<string>)
    ensures Restrict([event], expected) == if event.Some? && event.value in expected then [event.value] else []
  {
    RestrictNext([], event, expected);
    assert [] + [event] == [event];
  }

  lemma RestrictMore(received: seq<string>, events: seq<Option<string>>, n: nat, expected: set<string>)
    requires n < |events|
    ensures received + Restrict(events[..n + 1], expected)
         == received + Restrict(events[..n], expected) + Restrict([events[n]], expected)
  {
    RestrictOne(events[n], expected);
    RestrictNext(events[..n], events[n], expected);
    assert events[..n + 1] == events[..n] + [events[n]];
  }

  /** What the loop keeps of the ids received so far. */
  ghost predicate Reflects(observed: seq<string>, duplicates: seq<string>, seen: set<string>, received: seq<string>) {
    observed == Firsts(received) && duplicates == Repeats(received) && seen == Members(received)
  }

  /** One event of a batch. */
  method TakeEvent(expected: set<string>, event: Option<string>, observed: seq<string>, duplicates: seq<string>,
                   seen: set<string>, ghost received: seq<string>)
    returns (newObserved: seq<string>, newDuplicates: seq<string>, newSeen: set<string>)
    requires Reflects(observed, duplicates, seen, received)
    ensures Reflects(newObserved, newDuplicates, newSeen, received + Restrict([event], expected))
  {
    newObserved, newDuplicates, newSeen := observed, duplicates, seen;
    RestrictOne(event, expected);
    if event.None? || event.value !in expected {
      assert received + [] == received;
      return;
    }
    FirstsOfNext(received, event.value);
    if event.value in newSeen {
      newDuplicates := newDuplicates + [event.value];
      return;
    }
    newSeen := newSeen + {event.value};
    newObserved := newObserved + [event.value];
  }

  /** The inner loop of `wait_for_ordered_backfill`: one batch. */
  method TakeBatch(expected: set<string>, events: seq<Option<string>>, observed: seq<string>, duplicates: seq<string>,
                   seen: set<string>, ghost received: seq<string>)
    returns (newObserved: seq<string>, newDuplicates: seq<string>, newSeen: set<string>)
    requires Reflects(observed, duplicates, seen, received)
    ensures Reflects(newObserved, newDuplicates, newSeen, received + Restrict(events, expected))
  {
    newObserved, newDuplicates, newSeen := observed, duplicates, seen;
    assert received + Restrict(events[..0], expected) == received;
    for n := 0 to |events|
      invariant Reflects(newObserved, newDuplicates, newSeen, received + Restrict(events[..n], expected))
    {
      newObserved, newDuplicates, newSeen := TakeEvent(
        expected, events[n], newObserved, newDuplicates, newSeen, received + Restrict(events[..n], expected));
      RestrictMore(received, events, n, expected);
    }
    assert events[..|events|] == events;
  }

  /** After these batches, every expected id has been seen. */
  predicate HasAll(expected: seq<string>, batches: seq<seq<Option<string>>>) {
    Members(Received(expected, batches)) == Members(expected)
  }

  /** None of the first batches completes the set. */
  predicate Incomplete(expected: seq<string>, batches: seq<seq<Option<string>>>, used: nat)
    requires used <= |batches|
  {
    forall k :: 0 < k <= used ==> !HasAll(expected, batches[..k])
  }

  /** The next batch of an answer, and whether it completes the set. */
  method TakeNext(expectedIds: seq<string>, expected: set<string>, batches: seq<seq<Option<string>>>, used: nat,
                  observed: seq<string>, duplicates: seq<string>, seen: set<string>)
    returns (newObserved: seq<string>, newDuplicates: seq<string>, newSeen: set<string>)
    requires used < |batches| && expected == Members(expectedIds)
    requires Reflects(observed, duplicates, seen, Received(expectedIds, batches[..used]))
    ensures Reflects(newObserved, newDuplicates, newSeen, Received(expectedIds, batches[..used + 1]))
    ensures newSeen == expected <==> HasAll(expectedIds, batches[..used + 1])
  {
    ReceivedNext(expectedIds, batches, used);
    newObserved, newDuplicates, newSeen :=
      TakeBatch(expected, batches[used], observed, duplicates, seen, Received(expectedIds, batches[..used]));
  }

  /**
    `wait_for_ordered_backfill`: the server answers with these batches, and the deadline may strike before any
    of them is asked for. The wait ends well at the first batch after which every expected id has been seen.
   */
  method WaitForOrderedBackfill(expectedIds: seq<string>, batches: seq<seq<Option<string>>>)
    returns (complete: bool, observed: seq<string>, duplicates: seq<string>, used: nat)
    ensures used <= |batches|
    ensures observed == Firsts(Received(expectedIds, batches[..used]))
    ensures duplicates == Repeats(Received(expectedIds, batches[..used]))
    ensures complete <==> used > 0 && HasAll(expectedIds, batches[..used])
    ensures forall k :: 0 < k < used ==> !HasAll(expectedIds, batches[..k])
  {
    var expected := Members(expectedIds);
    var seen: set<string> := {};
    observed, duplicates, used, complete := [], [], 0, false;
    assert batches[..0] == [];
    while used < |batches|
      invariant used <= |batches|
      invariant Reflects(observed, duplicates, seen, Received(expectedIds, batches[..used]))
      invariant Incomplete(expectedIds, batches, used)
    {
      if * {
        return;
      }
      observed, duplicates, seen := TakeNext(expectedIds, expected, batches, used, observed, duplicates, seen);
      used := used + 1;
      if seen == expected {
        return true, observed, duplicates, used;
      }
    }
  }

  // ---------------------------------------------------------------- what comes after the wait

  lemma {:induction false} ReceivedOfBoth(
    expected: seq<string>, a: seq<seq<Option<string>>>, b: seq<seq<Option<string>>>)
    ensures Received(expected, a + b) == Received(expected, a) + Received(expected, b)
    decreases |b|
  {
    if b == [] {
      assert a + b == a;
    } else {
      var n := |b| - 1;
      ReceivedOfBoth(expected, a, b[..n]);
      assert (a + b)[..|a + b| - 1] == a + b[..n] && (a + b)[|a + b| - 1] == b[n];
      assert Received(expected, a + b) == ReceivedWithLast(expected, a + b);
      assert Received(expected, b) == ReceivedWithLast(expected, b);
    }
  }

  /** Once every id has been seen, all that follows are repeats. */
  lemma {:induction false} OnlyRepeatsFollow(seen: seq<string>, later: seq<string>)
    requires forall id :: id in later ==> id in seen
    ensures Repeats(seen + later) == Repeats(seen) + later && Firsts(seen + later) == Firsts(seen)
    decreases |later|
  {
    if later == [] {
      assert seen + later == seen;
    } else {
      var n := |later| - 1;
      OnlyRepeatsFollow(seen, later[..n]);
      FirstsOfNext(seen + later[..n], later[n]);
      assert seen + later[..n] + [later[n]] == seen + later;
    }
  }

  lemma {:induction false} RestrictedAreExpected(stream: seq<Option<string>>, expected: set<string>)
    ensures forall id :: id in Restrict(stream, expected) ==> id in expected
  {
    if stream != [] {
      RestrictedAreExpected(stream[..|stream| - 1], expected);
    }
  }

  lemma {:induction false} ReceivedAreExpected(expected: seq<string>, batches: seq<seq<Option<string>>>)
    ensures forall id :: id in Received(expected, batches) ==> id in expected
  {
    if batches != [] {
      var before, last := batches[..|batches| - 1], batches[|batches| - 1];
      ReceivedAreExpected(expected, before);
      RestrictedAreExpected(last, Members(expected));
      assert Received(expected, batches) == ReceivedWithLast(expected, batches);
    }
  }

  /**
    The wait reads no batch after the one that completes the set: of the repeats in the whole stream it reports
    those read so far, which are all of them exactly when no expected id occurs later.
   */
  lemma LaterRepeatsGoUnseen(expected: seq<string>, batches: seq<seq<Option<string>>>, used: nat)
    requires used <= |batches| && HasAll(expected, batches[..used])
    ensures Repeats(Received(expected, batches))
         == Repeats(Received(expected, batches[..used])) + Received(expected, batches[used..])
    ensures Repeats(Received(expected, batches)) == Repeats(Received(expected, batches[..used]))
       <==> Received(expected, batches[used..]) == []
  {
    var seen, later := Received(expected, batches[..used]), Received(expected, batches[used..]);
    assert batches == batches[..used] + batches[used..];
    ReceivedOfBoth(expected, batches[..used], batches[used..]);
    ReceivedAreExpected(expected, batches[used..]);
    assert forall id :: id in later ==> id in Members(seen);
    OnlyRepeatsFollow(seen, later);
  }

  // ---------------------------------------------------------------- the verdict

  const REQUIRED_OUTAGE_SECONDS := 1800.0
  const REQUIRED_EVENT_COUNT := 10

  datatype Assessment = Assessment(
    deliveredEvents: nat,
    duplicateEvents: nat,
    eventOrderPreserved: bool,
    outageDurationReached: bool,
    passed: bool,
    releaseGateEligible: bool)

  /** `delivery_assessment`. */
  function Assess(
    expected: seq<string>, observed: seq<string>, duplicates: seq<string>, actual: real, requested: int): Assessment
  {
    var delivered := |Members(expected) * Members(observed)|;
    var ratio := if expected != [] then delivered as real / |expected| as real else 0.0;
    var outageReached := actual + 0.1 >= requested as real;
    var passed := expected != [] && ratio == 1.0 && observed == expected && duplicates == [] && outageReached;
    var eligible := && passed && requested as real >= REQUIRED_OUTAGE_SECONDS && actual >= REQUIRED_OUTAGE_SECONDS
                    && |expected| >= REQUIRED_EVENT_COUNT;
    Assessment(delivered, |duplicates|, observed == expected, outageReached, passed, eligible)
  }

  lemma {:induction false} DistinctCount(ids: seq<string>)
    ensures |Members(ids)| <= |ids|
    ensures |Members(ids)| == |ids| <==> Distinct(ids)
  {
    if ids != [] {
      var before, last := ids[..|ids| - 1], ids[|ids| - 1];
      DistinctCount(before);
      assert ids == before + [last];
      DistinctNext(before, last);
      assert Members(ids) == Members(before) + {last};
    }
  }

  lemma RatioIsOne(part: nat, whole: nat)
    requires whole > 0
    ensures part as real / whole as real == 1.0 <==> part == whole
  {
  }

  lemma PassedMeans(expected: seq<string>, observed: seq<string>, duplicates: seq<string>, actual: real, requested: int)
    ensures Assess(expected, observed, duplicates, actual, requested).passed
       <==> && expected != [] && observed == expected && Distinct(expected) && duplicates == []
            && actual + 0.1 >= requested as real
  {
    if expected != [] && observed == expected {
      assert Members(expected) * Members(observed) == Members(expected);
      DistinctCount(expected);
      RatioIsOne(|Members(expected)|, |expected|);
    }
  }

  /**
    The verdict on what was received, for every list of expected ids and every stream: it passes exactly when
    the outage lasted as long as requested and the expected ids in the stream are the expected list itself,
    which is not empty and names no id twice.
   */
  lemma PassesExactlyOnPerfectDelivery(expected: seq<string>, received: seq<string>, actual: real, requested: int)
    ensures Assess(expected, Firsts(received), Repeats(received), actual, requested).passed
       <==> expected != [] && received == expected && Distinct(expected) && actual + 0.1 >= requested as real
  {
    PassedMeans(expected, Firsts(received), Repeats(received), actual, requested);
    NoRepeats(received);
  }

  /** What a passed verdict means for every single id: it was received exactly once. */
  lemma PassedMeansOnce(expected: seq<string>, received: seq<string>, actual: real, requested: int, id: string)
    requires Assess(expected, Firsts(received), Repeats(received), actual, requested).passed
    ensures multiset(received)[id] == if id in expected then 1 else 0
  {
    PassesExactlyOnPerfectDelivery(expected, received, actual, requested);
    DistinctMeansOnce(received, id);
  }

  lemma {:induction false} DistinctMeansOnce(ids: seq<string>, id: string)
    requires Distinct(ids)
    ensures multiset(ids)[id] == if id in ids then 1 else 0
  {
    if ids != [] {
      var before, last := ids[..|ids| - 1], ids[|ids| - 1];
      DistinctMeansOnce(before, id);
      assert ids == before + [last];
    }
  }

  /** As many events are repeats as came beyond the first of their id. */
  lemma RepeatsAreTheRest(received: seq<string>)
    ensures Members(Firsts(received)) == Members(received) && |Repeats(received)| + |Members(received)| == |received|
  {
    FirstsAreMembers(received);
    assert Members(Firsts(received)) == Members(received);
    DistinctCount(Firsts(received));
  }

  /**
    `execute`, from the restart on: a passed report means that the batches read brought the expected ids
    exactly once and in order. Batches after the last one needed are never read, so a repeat there goes unseen.
   */
  method AssessBackfill(expectedIds: seq<string>, batches: seq<seq<Option<string>>>, actual: real, requested: int)
    returns (report: Option<Assessment>, used: nat)
    ensures used <= |batches|
    ensures report.Some? <==> used > 0 && HasAll(expectedIds, batches[..used])
    ensures report.Some? ==>
              && report.value.deliveredEvents == |set id | id in expectedIds|
              && report.value.duplicateEvents + |set id | id in Received(expectedIds, batches[..used])|
                 == |Received(expectedIds, batches[..used])|
              && (report.value.eventOrderPreserved <==> Firsts(Received(expectedIds, batches[..used])) == expectedIds)
              && (report.value.outageDurationReached <==> actual + 0.1 >= requested as real)
    ensures report.Some? ==> (report.value.passed <==>
                              && Received(expectedIds, batches[..used]) == expectedIds && Distinct(expectedIds)
                              && expectedIds != [] && actual + 0.1 >= requested as real)
    ensures report.Some? ==>
              (report.value.releaseGateEligible <==>
               && report.value.passed && |expectedIds| >= REQUIRED_EVENT_COUNT
               && actual >= REQUIRED_OUTAGE_SECONDS && requested as real >= REQUIRED_OUTAGE_SECONDS)
  {
    var complete, observed, duplicates;
    complete, observed, duplicates, used := WaitForOrderedBackfill(expectedIds, batches);
    if !complete {
      return None, used;
    }
    PassesExactlyOnPerfectDelivery(expectedIds, Received(expectedIds, batches[..used]), actual, requested);
    RepeatsAreTheRest(Received(expectedIds, batches[..used]));
    assert Members(expectedIds) * Members(observed) == Members(expectedIds);
    report := Some(Assess(expectedIds, observed, duplicates, actual, requested));
  }
}
