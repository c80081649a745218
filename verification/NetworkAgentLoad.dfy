/** Delivery accounting and send pacing of the load driver. */
module NetworkAgentLoad {
  import opened Rounding
  import opened Wrappers

  /** Which agents a message wakes: everyone in the room, or the one that it names. */
  datatype Wake = All | Related

  datatype Sent = Sent(at: real, room: string, speaker: nat, target: Option<nat>)

  // ---------------------------------------------------------------- counting

  /** `_counts`. */
  predicate Counts(wake: Wake, sent: Sent, receiver: nat) {
    if wake.Related? then sent.target == Some(receiver) else receiver != sent.speaker
  }

  /** What one message is expected to bring: one delivery per other agent of the room, or one to the named agent. */
  function ExpectedOf(wake: Wake, sent: Sent, sizes: map<string, nat>): nat {
    if wake.Related? then if sent.target.Some? then 1 else 0
    else if sent.room in sizes && sizes[sent.room] > 0 then sizes[sent.room] - 1 else 0
  }

  ghost function Expected(wake: Wake, sent: map<string, Sent>, sizes: map<string, nat>): nat
    decreases |sent|
  {
    if sent == map[] then 0
    else
      var n := AnyNonce(sent);
      ExpectedOf(wake, sent[n], sizes) + Expected(wake, sent - {n}, sizes)
  }

  ghost function AnyNonce(m: map<string, Sent>): (n: string)
    requires m != map[]
    ensures n in m
  {
    assert exists n :: n in m by {
      assert m.Keys != {} by {
        assert m.Keys == {} ==> m == map[];
      }
    }
    var n :| n in m; n
  }

  /** The sum does not depend on the order in which messages are taken. */
  lemma {:induction false} TakeOut(wake: Wake, sent: map<string, Sent>, sizes: map<string, nat>, n: string)
    requires n in sent
    ensures Expected(wake, sent, sizes) == ExpectedOf(wake, sent[n], sizes) + Expected(wake, sent - {n}, sizes)
    decreases |sent|
  {
    var first := AnyNonce(sent);
    if first != n {
      TakeOut(wake, sent - {first}, sizes, n);
      TakeOut(wake, sent - {n}, sizes, first);
      assert sent - {first} - {n} == sent - {n} - {first};
    }
  }

  /** The deliveries that may be counted for these messages; in the mode that wakes all, receivers are in the room. */
  ghost predicate Countable(wake: Wake, sent: map<string, Sent>, rooms: map<string, set<nat>>, d: (string, nat)) {
    && d.0 in sent && Counts(wake, sent[d.0], d.1)
    && (wake.All? ==> sent[d.0].room in rooms && d.1 in rooms[sent[d.0].room])
  }

  ghost predicate AllCountable(
    wake: Wake, sent: map<string, Sent>, rooms: map<string, set<nat>>, got: set<(string, nat)>)
  {
    forall d :: d in got ==> Countable(wake, sent, rooms, d)
  }

  /** Whoever speaks in a room is in it. */
  ghost predicate SpeakersAreMembers(sent: map<string, Sent>, rooms: map<string, set<nat>>) {
    forall n :: n in sent && sent[n].room in rooms ==> sent[n].speaker in rooms[sent[n].room]
  }

  function Sizes(rooms: map<string, set<nat>>): map<string, nat> {
    map r | r in rooms :: |rooms[r]|
  }

  /** Whom a message is expected to reach. */
  function ReceiversOf(wake: Wake, m: Sent, rooms: map<string, set<nat>>): set<nat> {
    if wake.Related? then if m.target.Some? then {m.target.value} else {}
    else if m.room in rooms then rooms[m.room] - {m.speaker} else {}
  }

  /** Every delivery that is expected. */
  function Deliverable(wake: Wake, sent: map<string, Sent>, rooms: map<string, set<nat>>): set<(string, nat)> {
    set n, r | n in sent && r in ReceiversOf(wake, sent[n], rooms) :: (n, r)
  }

  lemma InDeliverable(wake: Wake, sent: map<string, Sent>, rooms: map<string, set<nat>>, d: (string, nat))
    ensures d in Deliverable(wake, sent, rooms) <==> d.0 in sent && d.1 in ReceiversOf(wake, sent[d.0], rooms)
    ensures d in Deliverable(wake, sent, rooms) <==> Countable(wake, sent, rooms, d)
  {
    assert d == (d.0, d.1);
  }

  /** The deliveries of one message. */
  function Pairs(n: string, receivers: set<nat>): set<(string, nat)> {
    set r | r in receivers :: (n, r)
  }

  lemma {:induction false} OneEach(n: string, receivers: set<nat>)
    ensures |Pairs(n, receivers)| == |receivers|
  {
    if receivers != {} {
      var r :| r in receivers;
      OneEach(n, receivers - {r});
      assert Pairs(n, receivers) == Pairs(n, receivers - {r}) + {(n, r)};
    }
  }

  lemma ReceiversAreExpected(wake: Wake, m: Sent, rooms: map<string, set<nat>>)
    requires m.room in rooms ==> m.speaker in rooms[m.room]
    ensures |ReceiversOf(wake, m, rooms)| == ExpectedOf(wake, m, Sizes(rooms))
  {
    if wake.All? && m.room in rooms {
      assert rooms[m.room] == ReceiversOf(wake, m, rooms) + {m.speaker};
    }
  }

  lemma DeliverableSplits(wake: Wake, sent: map<string, Sent>, rooms: map<string, set<nat>>, n: string)
    requires n in sent
    ensures var mine, others := Pairs(n, ReceiversOf(wake, sent[n], rooms)), Deliverable(wake, sent - {n}, rooms);
            Deliverable(wake, sent, rooms) == mine + others && mine !! others
  {
    var mine, others := Pairs(n, ReceiversOf(wake, sent[n], rooms)), Deliverable(wake, sent - {n}, rooms);
    forall d ensures d in Deliverable(wake, sent, rooms) <==> d in mine + others {
      InDeliverable(wake, sent, rooms, d);
      InDeliverable(wake, sent - {n}, rooms, d);
      assert d == (d.0, d.1);
    }
    forall d | d in mine ensures d !in others {
      InDeliverable(wake, sent - {n}, rooms, d);
    }
  }

  lemma DeliverableOfOne(wake: Wake, sent: map<string, Sent>, rooms: map<string, set<nat>>, n: string)
    requires n in sent && SpeakersAreMembers(sent, rooms)
    ensures |Deliverable(wake, sent, rooms)|
         == ExpectedOf(wake, sent[n], Sizes(rooms)) + |Deliverable(wake, sent - {n}, rooms)|
  {
    var receivers := ReceiversOf(wake, sent[n], rooms);
    ReceiversAreExpected(wake, sent[n], rooms);
    OneEach(n, receivers);
    DeliverableSplits(wake, sent, rooms, n);
  }

  /** As many deliveries can be counted as are expected. */
  lemma {:induction false} DeliverableAreExpected(wake: Wake, sent: map<string, Sent>, rooms: map<string, set<nat>>)
    requires SpeakersAreMembers(sent, rooms)
    ensures |Deliverable(wake, sent, rooms)| == Expected(wake, sent, Sizes(rooms))
    decreases |sent|
  {
    if sent != map[] {
      var n := AnyNonce(sent);
      DeliverableOfOne(wake, sent, rooms, n);
      DeliverableAreExpected(wake, sent - {n}, rooms);
    }
  }

  /** Counting: countable deliveries and those still missing make up the expected ones. */
  lemma CountedAndMissing(
    wake: Wake, sent: map<string, Sent>, rooms: map<string, set<nat>>, got: set<(string, nat)>)
    requires AllCountable(wake, sent, rooms, got) && SpeakersAreMembers(sent, rooms)
    ensures |got| + |Deliverable(wake, sent, rooms) - got| == Expected(wake, sent, Sizes(rooms))
  {
    var all := Deliverable(wake, sent, rooms);
    DeliverableAreExpected(wake, sent, rooms);
    forall d | d in got ensures d in all {
      InDeliverable(wake, sent, rooms, d);
    }
    assert all == got + (all - got);
  }

  // ---------------------------------------------------------------- the ledger

  class Ledger {
    var wake: Wake
    var sent: map<string, Sent>
    var delivered: set<(string, nat)>
    var latencies: seq<real>
    var errors: map<string, nat>
    var userIds: map<nat, string>
    ghost var used: set<string>  // nonces of the current window

    /** Every counted delivery was counted once, for a message of the window, to a receiver that it wakes. */
    ghost predicate Valid()
      reads this
    {
      && |latencies| == |delivered|
      && (forall n :: n in sent ==> n in used)
      && (forall d :: d in delivered ==> d.0 in used && (d.0 in sent ==> Counts(wake, sent[d.0], d.1)))
    }

    constructor ()
      ensures Valid() && sent == map[] && delivered == {} && latencies == [] && wake == All && used == {}
    {
      wake, sent, delivered, latencies, errors, userIds := All, map[], {}, [], map[], map[];
      used := {};
    }

    /** `begin`: a new window; what was learnt about user ids stays. */
    method Begin(wake: Wake)
      modifies this
      ensures Valid() && this.wake == wake && sent == map[] && delivered == {} && latencies == [] && errors == map[]
      ensures used == {} && userIds == old(userIds)
    {
      this.wake, sent, delivered, latencies, errors := wake, map[], {}, [], map[];
      used := {};
    }

    /** `sending`, with a nonce that is new in the window. */
    method Sending(nonce: string, now: real, room: string, speaker: nat, target: Option<nat>)
      requires Valid() && nonce !in used
      modifies this
      ensures Valid() && sent == old(sent)[nonce := Sent(now, room, speaker, target)] && used == old(used) + {nonce}
      ensures delivered == old(delivered) && latencies == old(latencies) && wake == old(wake)
      ensures errors == old(errors) && userIds == old(userIds)
    {
      sent := sent[nonce := Sent(now, room, speaker, target)];
      used := used + {nonce};
    }

    /** `not_sent`: the message is withdrawn, its counted deliveries are not. */
    method NotSent(nonce: string, reason: string)
      requires Valid()
      modifies this
      ensures Valid() && sent == old(sent) - {nonce} && used == old(used)
      ensures delivered == old(delivered) && latencies == old(latencies) && wake == old(wake) && userIds == old(userIds)
      ensures errors == old(errors)[reason := (if reason in old(errors) then old(errors)[reason] else 0) + 1]
    {
      sent := sent - {nonce};
      errors := errors[reason := (if reason in errors then errors[reason] else 0) + 1];
    }

    /** `learn`: the first user id that is learnt for an agent stays. */
    method Learn(index: nat, userId: string)
      modifies this`userIds
      ensures userIds == if index in old(userIds) then old(userIds) else old(userIds)[index := userId]
    {
      if index !in userIds {
        userIds := userIds[index := userId];
      }
    }

    /** Whether a delivery is counted: once, and only for a message of the window that wakes the receiver. */
    predicate Accepts(nonce: string, receiver: nat)
      reads this
    {
      nonce in sent && Counts(wake, sent[nonce], receiver) && (nonce, receiver) !in delivered
    }

    /** `received`: the sender's user id is learnt once, and the delivery is counted if it is acceptable. */
    method Received(nonce: string, now: real, receiver: nat, speaker: nat, author: Option<string>)
      requires Valid()
      modifies this`delivered, this`latencies, this`userIds
      ensures Valid()
      ensures delivered == old(delivered) + if old(Accepts(nonce, receiver)) then {(nonce, receiver)} else {}
      ensures latencies == old(latencies) + if old(Accepts(nonce, receiver)) then [now - sent[nonce].at] else []
      ensures userIds ==
              if author.Some? && speaker !in old(userIds) then old(userIds)[speaker := author.value] else old(userIds)
    {
      if author.Some? {
        Learn(speaker, author.value);
      }
      Count(nonce, now, receiver);
    }

    method Count(nonce: string, now: real, receiver: nat)
      requires Valid()
      modifies this`delivered, this`latencies
      ensures Valid()
      ensures delivered == old(delivered) + if old(Accepts(nonce, receiver)) then {(nonce, receiver)} else {}
      ensures latencies == old(latencies) + if old(Accepts(nonce, receiver)) then [now - sent[nonce].at] else []
    {
      if nonce !in sent || !Counts(wake, sent[nonce], receiver) || (nonce, receiver) in delivered {
        return;
      }
      delivered := delivered + {(nonce, receiver)};
      latencies := latencies + [now - sent[nonce].at];
    }

    /** The counts of `summary`. */
    method Summary(sizes: map<string, nat>) returns (messages: nat, expected: nat, received: nat)
      requires Valid()
      ensures messages == |sent| && received == |delivered| && expected == Expected(wake, sent, sizes)
    {
      expected := 0;
      var left := sent;
      while left != map[]
        invariant expected + Expected(wake, left, sizes) == Expected(wake, sent, sizes)
        decreases |left|
      {
        assert left.Keys != {} by {
          assert left.Keys == {} ==> left == map[];
        }
        var n :| n in left.Keys;
        TakeOut(wake, left, sizes, n);
        expected := expected + ExpectedOf(wake, left[n], sizes);
        left := left - {n};
      }
      messages, received := |sent|, |latencies|;
    }

    /** The deliveries counted for messages that `not_sent` withdrew afterwards. */
    ghost function Withdrawn(): set<(string, nat)>
      reads this
    {
      set d | d in delivered && d.0 !in sent
    }

    /** The expected deliveries that have not come. */
    ghost function Missing(rooms: map<string, set<nat>>): set<(string, nat)>
      reads this
    {
      Deliverable(wake, sent, rooms) - delivered
    }

    /** In the mode that wakes all, whoever receives a message of a room is in it. */
    ghost predicate ReceiversAreMembers(rooms: map<string, set<nat>>)
      requires Valid()
      reads this
    {
      wake.All? ==>
        forall d :: d in delivered && d.0 in sent ==> sent[d.0].room in rooms && d.1 in rooms[sent[d.0].room]
    }

    /**
      After any interleaving of calls: received and missing together are expected and withdrawn together. So more
      is received than expected exactly when more deliveries were withdrawn than are missing.
     */
    lemma DeliveriesBalance(rooms: map<string, set<nat>>)
      requires Valid() && SpeakersAreMembers(sent, rooms) && ReceiversAreMembers(rooms)
      ensures |latencies| + |Missing(rooms)| == Expected(wake, sent, Sizes(rooms)) + |Withdrawn()|
      ensures |latencies| > Expected(wake, sent, Sizes(rooms)) <==> |Withdrawn()| > |Missing(rooms)|
    {
      var still := delivered - Withdrawn();
      CountedAndMissing(wake, sent, rooms, still);
      assert Deliverable(wake, sent, rooms) - still == Missing(rooms);
    }

    /** No more is received than expected, but for the withdrawn deliveries. */
    lemma ReceivedAtMostExpected(rooms: map<string, set<nat>>)
      requires Valid() && SpeakersAreMembers(sent, rooms) && ReceiversAreMembers(rooms)
      ensures |latencies| <= Expected(wake, sent, Sizes(rooms)) + |Withdrawn()|
    {
      DeliveriesBalance(rooms);
    }

    /** In a window in which everything has come, more is received exactly when a delivered message was withdrawn. */
    lemma CompleteWindow(rooms: map<string, set<nat>>)
      requires Valid() && SpeakersAreMembers(sent, rooms) && ReceiversAreMembers(rooms) && Missing(rooms) == {}
      ensures |latencies| == Expected(wake, sent, Sizes(rooms)) + |Withdrawn()|
      ensures |latencies| > Expected(wake, sent, Sizes(rooms)) <==> Withdrawn() != {}
    {
      DeliveriesBalance(rooms);
    }
  }

  /** A delivery counted before its message is withdrawn is received but no longer expected. */
  method WithdrawnDeliveryOvercounts(
    nonce: string, room: string, speaker: nat, receiver: nat, rooms: map<string, set<nat>>)
    returns (expected: nat, received: nat)
    requires speaker != receiver && room in rooms && rooms[room] == {speaker, receiver}
    ensures expected == 0 && received == 1
  {
    var ledger := new Ledger();
    ledger.Begin(All);
    ledger.Sending(nonce, 0.0, room, speaker, None);
    ledger.Received(nonce, 1.0, receiver, speaker, None);
    ledger.NotSent(nonce, "timeout");
    var messages;
    assert ledger.sent == map[];
    messages, expected, received := ledger.Summary(Sizes(rooms));
  }

  // ---------------------------------------------------------------- pacing

  class Clock {
    var now: real
    ghost var lost: real  // the time that passed beyond the sleeps asked for

    /** A reading; time may pass before it, and never runs backwards. */
    method Read() returns (t: real)
      modifies this
      ensures t == now >= old(now) && now - old(now) == lost - old(lost)
    {
      var d: real := *;
      if d > 0.0 {
        now := now + d;
        lost := lost + d;
      }
      t := now;
    }

    /** Sleeps at least as long as asked. */
    method Sleep(d: real)
      modifies this
      ensures now >= old(now) && now >= old(now) + d
      ensures lost >= old(lost) && now - old(now) == lost - old(lost) + if d > 0.0 then d else 0.0
    {
      if d > 0.0 {
        now := now + d;
      }
      var t := Read();
    }
  }

  /** One turn of the loop: a message, and the sleep until the next one is due, unless that is past. */
  method SpeakOnce(clock: Clock, due: real) returns (submission: real, t: real)
    modifies clock
    ensures old(clock.now) <= submission <= t == clock.now && clock.lost >= old(clock.lost) && t >= due
    ensures t <= (if due > old(clock.now) then due else old(clock.now)) + (clock.lost - old(clock.lost))
  {
    submission := clock.Read();
    var now := clock.Read();
    clock.Sleep(due - now);
    t := clock.Read();
  }

  /** No message is before its time. */
  predicate OnTime(submitted: seq<real>, due: nat -> real) {
    forall k :: 0 <= k < |submitted| ==> submitted[k] >= due(k)
  }

  predicate Ordered(submitted: seq<real>, t: real) {
    forall j, k :: 0 <= j <= k < |submitted| ==> submitted[j] <= submitted[k] <= t
  }

  /** The loop of `speak`, for any times at which messages are due, of which fewer than `limit` lie in the window. */
  method SpeakUntil(clock: Clock, started: real, window: real, due: nat -> real, ghost limit: nat)
    returns (submitted: seq<real>)
    requires due(0) == started <= clock.now && forall j, k :: 0 <= j <= k ==> due(j) <= due(k)
    requires forall k :: k >= limit ==> due(k) >= started + window
    modifies clock
    ensures |submitted| <= limit && OnTime(submitted, due) && Ordered(submitted, clock.now)
    ensures clock.now >= started + window && clock.lost >= old(clock.lost)
    ensures started + window <= due(|submitted|) + (clock.lost - old(clock.lost)) + (old(clock.now) - started)
    ensures window <= 0.0 ==> submitted == []
  {
    submitted := [];
    var sent := 0;
    var t := clock.Read();
    while t - started < window
      invariant sent == |submitted| <= limit && t == clock.now && OnTime(submitted, due) && Ordered(submitted, t)
      invariant clock.lost >= old(clock.lost) && (sent > 0 ==> window > 0.0)
      invariant due(sent) <= t <= due(sent) + (clock.lost - old(clock.lost)) + (old(clock.now) - started)
      decreases limit - sent
    {
      var submission;
      submission, t := SpeakOnce(clock, due(sent + 1));
      submitted := submitted + [submission];
      sent := sent + 1;
    }
  }

  /** No message before its time, no more of them than the window holds, and as many as the lost time allows. */
  ghost predicate Paced(submitted: seq<real>, started: real, rate: real, window: real, lost: real)
    requires rate > 0.0
  {
    && (forall k :: 0 <= k < |submitted| ==> submitted[k] >= started + k as real / rate)
    && (if window > 0.0 then |submitted| <= Ceil(rate * window) else submitted == [])
    && |submitted| as real >= rate * (window - lost)
  }

  /**
    `speak`: message k is never submitted before start + k / rate, so a window never sees more than
    ceil(rate * window) messages, however slow the iterations are. And it falls short of rate * window messages by no
    more than the time that the iterations take.
   */
  method Speak(clock: Clock, rate: real, window: real)
    returns (started: real, submitted: seq<real>, ghost lost: real)
    requires rate > 0.0
    modifies clock
    ensures started >= old(clock.now)
    ensures lost == clock.lost - old(clock.lost) && Paced(submitted, started, rate, window, lost)
    ensures clock.now >= started + window && Ordered(submitted, clock.now)
  {
    started := clock.Read();
    var due := (k: nat) => started + k as real / rate;
    ghost var limit := DueTimes(due, started, rate, window);
    submitted := SpeakUntil(clock, started, window, due, limit);
    lost := clock.lost - old(clock.lost);
    WindowIsPaced(due, started, rate, window, submitted, limit, lost);
  }

  /** The times at which messages are due at a rate. */
  ghost predicate AtRate(due: nat -> real, started: real, rate: real)
    requires rate > 0.0
  {
    forall k: nat :: due(k) == started + k as real / rate
  }

  /** How many messages are due in a window. */
  function AtMost(rate: real, window: real): nat
    requires rate > 0.0
  {
    if window > 0.0 then Ceil(rate * window) else 0
  }

  lemma DueTimes(due: nat -> real, started: real, rate: real, window: real) returns (limit: nat)
    requires rate > 0.0 && AtRate(due, started, rate)
    ensures limit == AtMost(rate, window)
    ensures due(0) == started && forall j, k :: 0 <= j <= k ==> due(j) <= due(k)
    ensures forall k :: k >= limit ==> due(k) >= started + window
  {
    limit := AtMost(rate, window);
    forall j: nat, k: nat | j <= k ensures due(j) <= due(k) {
      LaterIsLater(j, k, rate);
    }
    forall k: nat | k >= limit ensures due(k) >= started + window {
      AfterTheWindow(k, rate, window);
    }
  }

  lemma WindowIsPaced(
    due: nat -> real, started: real, rate: real, window: real, submitted: seq<real>, limit: nat, lost: real)
    requires rate > 0.0 && AtRate(due, started, rate) && OnTime(submitted, due)
    requires |submitted| <= limit == AtMost(rate, window) && started + window <= due(|submitted|) + lost
    ensures Paced(submitted, started, rate, window, lost)
  {
    KeepsUp(|submitted|, rate, window, lost);
    forall k | 0 <= k < |submitted| ensures submitted[k] >= started + k as real / rate {
      assert submitted[k] >= due(k);
    }
  }

  lemma LaterIsLater(j: nat, k: nat, rate: real)
    requires rate > 0.0 && j <= k
    ensures j as real / rate <= k as real / rate
  {
  }

  lemma KeepsUp(sent: nat, rate: real, window: real, lost: real)
    requires rate > 0.0 && window <= sent as real / rate + lost
    ensures sent as real >= rate * (window - lost)
  {
    var q := sent as real / rate;
    assert q * rate == sent as real;
    assert (window - lost) * rate <= q * rate;
  }

  lemma AfterTheWindow(k: nat, rate: real, window: real)
    requires rate > 0.0 && (window > 0.0 ==> k >= Ceil(rate * window))
    ensures k as real / rate >= window
  {
    if window > 0.0 {
      var q := k as real / rate;
      assert q * rate == k as real >= rate * window;
      assert q < window ==> q * rate < window * rate;
    }
  }
}
