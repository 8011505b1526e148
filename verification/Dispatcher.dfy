/** The dispatcher: it finds the connections a notification is for and sends to them, many at a time. */
module Dispatchers {
  import opened ConnectionManagers
  import opened Tenancy

  const MAX_CONCURRENT_SENDS := 100
  const USER_BATCH_SIZE := 100

  /** Among `n` send attempts numbered from `start`, those that succeed, and how many they are. */
  function Successes(succeeds: nat -> bool, start: nat, n: nat): set<nat> {
    set k | 0 <= k < n && Succeeded(succeeds, start, k)
  }

  predicate Succeeded(succeeds: nat -> bool, start: nat, k: nat) {
    succeeds(start + k)
  }

  function CountOk(succeeds: nat -> bool, start: nat, n: nat): nat {
    if n == 0 then 0 else CountOk(succeeds, start, n - 1) + if succeeds(start + n - 1) then 1 else 0
  }

  lemma SuccessesNext(succeeds: nat -> bool, start: nat, n: nat)
    ensures Successes(succeeds, start, n + 1) == Successes(succeeds, start, n) + if succeeds(start + n) then {n} else {}
    ensures n !in Successes(succeeds, start, n)
  {
    assert Succeeded(succeeds, start, n) == succeeds(start + n);
  }

  lemma {:induction false} SuccessesCount(succeeds: nat -> bool, start: nat, n: nat)
    ensures |Successes(succeeds, start, n)| == CountOk(succeeds, start, n) <= n
  {
    if n > 0 {
      SuccessesCount(succeeds, start, n - 1);
      SuccessesNext(succeeds, start, n - 1);
    }
  }

  lemma {:induction false} CountOkSplit(succeeds: nat -> bool, start: nat, n: nat, m: nat)
    ensures CountOk(succeeds, start, n + m) == CountOk(succeeds, start, n) + CountOk(succeeds, start + n, m)
    decreases m
  {
    if m > 0 {
      CountOkSplit(succeeds, start, n, m - 1);
      assert n + m - 1 == n + (m - 1);
    }
  }

  /** A call of the acknowledgement tracker. */
  datatype Track = Track(notification: nat, connection: Id)

  predicate Within(order: seq<nat>, n: nat) {
    forall i :: 0 <= i < |order| ==> order[i] < n
  }

  function Tracks(notification: nat, conns: seq<Id>, order: seq<nat>): seq<Track>
    requires Within(order, |conns|)
  {
    seq(|order|, i requires 0 <= i < |order| => Track(notification, conns[order[i]]))
  }

  function RemoveAt<T>(s: seq<T>, j: nat): seq<T>
    requires j < |s|
  {
    s[..j] + s[j + 1..]
  }

  lemma TracksWithout(notification: nat, conns: seq<Id>, order: seq<nat>, j: nat)
    requires j < |order| && Within(order, |conns|)
    ensures Within(RemoveAt(order, j), |conns|)
    ensures multiset(Tracks(notification, conns, order))
         == multiset(Tracks(notification, conns, RemoveAt(order, j))) + multiset{Track(notification, conns[order[j]])}
  {
    var t, t' := Tracks(notification, conns, order), Tracks(notification, conns, RemoveAt(order, j));
    assert t == t[..j] + [t[j]] + t[j + 1..];
    assert t' == t[..j] + t[j + 1..];
  }

  lemma RemoveAtElements(order: seq<nat>, j: nat)
    requires j < |order| && NoRepeats(order)
    ensures NoRepeats(RemoveAt(order, j)) && Elements(RemoveAt(order, j)) == Elements(order) - {order[j]}
  {
    var r := RemoveAt(order, j);
    forall x | x in order && x != order[j]
      ensures x in r
    {
      var i :| 0 <= i < |order| && order[i] == x;
      assert r[if i < j then i else i - 1] == x;
    }
  }

  /** Two completion orders of the same sends track the same connections equally often. */
  lemma {:induction false} CompletionOrderUnobservable(notification: nat, conns: seq<Id>, a: seq<nat>, b: seq<nat>)
    requires NoRepeats(a) && NoRepeats(b) && Elements(a) == Elements(b)
    requires Within(a, |conns|) && Within(b, |conns|)
    ensures multiset(Tracks(notification, conns, a)) == multiset(Tracks(notification, conns, b))
    decreases |a|
  {
    if a == [] {
      NoRepeatsCount(a);
      NoRepeatsCount(b);
    } else {
      assert a[0] in Elements(b);
      var j :| 0 <= j < |b| && b[j] == a[0];
      TracksWithout(notification, conns, a, 0);
      TracksWithout(notification, conns, b, j);
      RemoveAtElements(a, 0);
      RemoveAtElements(b, j);
      CompletionOrderUnobservable(notification, conns, RemoveAt(a, 0), RemoveAt(b, j));
    }
  }

  function DeliveryOf(succeeds: nat -> bool, start: nat, notification: nat, k: nat, conn: Id): seq<Track> {
    if Succeeded(succeeds, start, k) then [Track(notification, conn)] else []
  }

  /** The deliveries among the first `n` sends to `conns`, the first of which is attempt number `start`. */
  function DeliveriesUpTo(succeeds: nat -> bool, start: nat, notification: nat, conns: seq<Id>, n: nat): seq<Track>
    requires n <= |conns|
  {
    if n == 0 then []
    else
      DeliveriesUpTo(succeeds, start, notification, conns, n - 1)
      + DeliveryOf(succeeds, start, notification, n - 1, conns[n - 1])
  }

  function Deliveries(succeeds: nat -> bool, start: nat, notification: nat, conns: seq<Id>): seq<Track> {
    DeliveriesUpTo(succeeds, start, notification, conns, |conns|)
  }

  /** The deliveries are those of the connections to which the send succeeds. */
  lemma {:induction false} DeliveriesExactly(
    succeeds: nat -> bool, start: nat, notification: nat, conns: seq<Id>, n: nat, t: Track)
    requires n <= |conns|
    ensures t in DeliveriesUpTo(succeeds, start, notification, conns, n)
       <==> exists k :: 0 <= k < n && Succeeded(succeeds, start, k) && t == Track(notification, conns[k])
    ensures |DeliveriesUpTo(succeeds, start, notification, conns, n)| == CountOk(succeeds, start, n)
    decreases n
  {
    if n > 0 {
      DeliveriesExactly(succeeds, start, notification, conns, n - 1, t);
      if t in DeliveriesUpTo(succeeds, start, notification, conns, n)
         && t !in DeliveriesUpTo(succeeds, start, notification, conns, n - 1) {
        assert Succeeded(succeeds, start, n - 1) && t == Track(notification, conns[n - 1]);
      }
    }
  }

  function InOrder(succeeds: nat -> bool, start: nat, n: nat): (order: seq<nat>)
    ensures NoRepeats(order) && Elements(order) == Successes(succeeds, start, n)
    ensures Within(order, n)
  {
    if n == 0 then []
    else
      var before := InOrder(succeeds, start, n - 1);
      assert forall i :: 0 <= i < |before| ==> before[i] in Elements(before);
      assert Successes(succeeds, start, n)
          == Successes(succeeds, start, n - 1) + if Succeeded(succeeds, start, n - 1) then {n - 1} else {};
      assert Elements(before + [n - 1]) == Elements(before) + {n - 1};
      if Succeeded(succeeds, start, n - 1) then before + [n - 1] else before
  }

  lemma {:induction false} InOrderDeliveries(
    succeeds: nat -> bool, start: nat, notification: nat, conns: seq<Id>, n: nat)
    requires n <= |conns|
    ensures Tracks(notification, conns, InOrder(succeeds, start, n))
      == DeliveriesUpTo(succeeds, start, notification, conns, n)
    decreases n
  {
    if n > 0 {
      InOrderDeliveries(succeeds, start, notification, conns, n - 1);
      var before := InOrder(succeeds, start, n - 1);
      assert Tracks(notification, conns, before + [n - 1])
          == Tracks(notification, conns, before) + [Track(notification, conns[n - 1])];
    }
  }

  lemma SameDelivery(succeeds: nat -> bool, start: nat, notification: nat, a: seq<Id>, b: seq<Id>, k: nat)
    requires k < |b|
    ensures DeliveryOf(succeeds, start, notification, |a| + k, (a + b)[|a| + k])
         == DeliveryOf(succeeds, start + |a|, notification, k, b[k])
  {
    assert start + (|a| + k) == (start + |a|) + k;
  }

  lemma {:induction false} DeliveriesSplitAt(
    succeeds: nat -> bool, start: nat, notification: nat, a: seq<Id>, b: seq<Id>, n: nat)
    requires n <= |b|
    ensures DeliveriesUpTo(succeeds, start, notification, a + b, |a| + n)
         == Deliveries(succeeds, start, notification, a) + DeliveriesUpTo(succeeds, start + |a|, notification, b, n)
    decreases n
  {
    if n == 0 {
      PrefixDeliveries(succeeds, start, notification, a, b, |a|);
    } else {
      DeliveriesSplitAt(succeeds, start, notification, a, b, n - 1);
      SameDelivery(succeeds, start, notification, a, b, n - 1);
      Assoc(Deliveries(succeeds, start, notification, a), DeliveriesUpTo(succeeds, start + |a|, notification, b, n - 1),
            DeliveryOf(succeeds, start + |a|, notification, n - 1, b[n - 1]));
    }
  }

  lemma {:induction false} PrefixDeliveries(
    succeeds: nat -> bool, start: nat, notification: nat, a: seq<Id>, b: seq<Id>, n: nat)
    requires n <= |a|
    ensures DeliveriesUpTo(succeeds, start, notification, a + b, n)
      == DeliveriesUpTo(succeeds, start, notification, a, n)
    decreases n
  {
    if n > 0 {
      PrefixDeliveries(succeeds, start, notification, a, b, n - 1);
    }
  }

  lemma DeliveriesSplit(succeeds: nat -> bool, start: nat, notification: nat, a: seq<Id>, b: seq<Id>)
    ensures Deliveries(succeeds, start, notification, a + b)
         == Deliveries(succeeds, start, notification, a) + Deliveries(succeeds, start + |a|, notification, b)
  {
    DeliveriesSplitAt(succeeds, start, notification, a, b, |b|);
  }

  // ---- sending to a list of connections ----

  /** What the transport sees of one call: a send to a connection starts, or the send at a position comes back. */
  datatype Event = Started(conn: Id) | Finished(position: nat, ok: bool)

  /** What one call counts, tracks and does so far. */
  datatype Sends = Sends(delivered: nat, failed: nat, tracks: seq<Track>, events: seq<Event>)

  /** The connections sent to, in the order of the starts. */
  function Sent(events: seq<Event>): seq<Id>
    decreases |events|
  {
    if events == [] then []
    else
      var init, last := events[..|events| - 1], events[|events| - 1];
      if last.Started? then Sent(init) + [last.conn] else Sent(init)
  }

  /** The positions started and not yet back. */
  function InFlight(events: seq<Event>): set<nat>
    decreases |events|
  {
    if events == [] then {}
    else
      var init, last := events[..|events| - 1], events[|events| - 1];
      match last
      case Started(_) => InFlight(init) + {|Sent(init)|}
      case Finished(position, _) => InFlight(init) - {position}
  }

  /** The positions that came back with success, in that order. */
  function Arrived(events: seq<Event>): seq<nat>
    decreases |events|
  {
    if events == [] then []
    else
      var init, last := events[..|events| - 1], events[|events| - 1];
      if last.Finished? && last.ok then Arrived(init) + [last.position] else Arrived(init)
  }

  function TimesFinished(events: seq<Event>, position: nat): nat
    decreases |events|
  {
    if events == [] then 0
    else
      var init, last := events[..|events| - 1], events[|events| - 1];
      TimesFinished(init, position) + if last.Finished? && last.position == position then 1 else 0
  }

  /** Only a send in flight comes back, with its own outcome, and there are never more than `limit` in flight. */
  ghost predicate Legal(succeeds: nat -> bool, start: nat, events: seq<Event>, limit: nat)
    decreases |events|
  {
    events != [] ==>
      var init, last := events[..|events| - 1], events[|events| - 1];
      && Legal(succeeds, start, init, limit)
      && |InFlight(events)| <= limit
      && (last.Finished? ==> last.position in InFlight(init) && last.ok == Succeeded(succeeds, start, last.position))
  }

  /** At no time are there more sends in flight than the limit. */
  lemma {:induction false} NeverBeyondLimit(succeeds: nat -> bool, start: nat, events: seq<Event>, limit: nat, n: nat)
    requires Legal(succeeds, start, events, limit) && n <= |events|
    ensures |InFlight(events[..n])| <= limit
    decreases |events|
  {
    if n == |events| {
      assert events[..n] == events;
    } else {
      NeverBeyondLimit(succeeds, start, events[..|events| - 1], limit, n);
      assert events[..|events| - 1][..n] == events[..n];
    }
  }

  /** A send that was started has come back once, unless it is in flight. */
  lemma {:induction false} FinishedOnce(
    succeeds: nat -> bool, start: nat, events: seq<Event>, limit: nat, position: nat)
    requires Legal(succeeds, start, events, limit)
    ensures TimesFinished(events, position)
         == if position < |Sent(events)| && position !in InFlight(events) then 1 else 0
    ensures position in InFlight(events) ==> position < |Sent(events)|
    decreases |events|
  {
    if events != [] {
      var last := events[|events| - 1];
      FinishedOnce(succeeds, start, events[..|events| - 1], limit, position);
      if last.Finished? {
        FinishedOnce(succeeds, start, events[..|events| - 1], limit, last.position);
      }
    }
  }

  lemma EventStarts(succeeds: nat -> bool, start: nat, events: seq<Event>, limit: nat, conn: Id)
    requires Legal(succeeds, start, events, limit) && |InFlight(events)| < limit
    ensures var events' := events + [Started(conn)];
      && Sent(events') == Sent(events) + [conn] && Arrived(events') == Arrived(events)
      && InFlight(events') == InFlight(events) + {|Sent(events)|}
      && Legal(succeeds, start, events', limit)
  {
    assert (events + [Started(conn)])[..|events|] == events;
  }

  lemma EventFinishes(succeeds: nat -> bool, start: nat, events: seq<Event>, limit: nat, position: nat)
    requires Legal(succeeds, start, events, limit) && |InFlight(events)| <= limit && position in InFlight(events)
    ensures var ok := Succeeded(succeeds, start, position);
      var events' := events + [Finished(position, ok)];
      && Sent(events') == Sent(events) && Arrived(events') == Arrived(events) + (if ok then [position] else [])
      && InFlight(events') == InFlight(events) - {position}
      && Legal(succeeds, start, events', limit)
  {
    assert (events + [Finished(position, Succeeded(succeeds, start, position))])[..|events|] == events;
  }

  /** What has come in of the first `n` sends, apart from those in flight: the positions that succeeded, in
      their order of completion, and the number that failed. */
  ghost predicate Collected(
    succeeds: nat -> bool, start: nat, n: nat, inFlight: set<nat>, order: seq<nat>, failed: nat)
  {
    && (forall k :: k in inFlight ==> k < n)
    && NoRepeats(order)
    && (forall k: nat :: k in order <==> k < n && k !in inFlight && Succeeded(succeeds, start, k))
    && |order| + failed + |inFlight| == n
  }

  lemma StartOne(succeeds: nat -> bool, start: nat, n: nat, inFlight: set<nat>, order: seq<nat>, failed: nat)
    requires Collected(succeeds, start, n, inFlight, order, failed)
    ensures Collected(succeeds, start, n + 1, inFlight + {n}, order, failed)
    ensures |inFlight + {n}| == |inFlight| + 1
  {
  }

  lemma CollectOne(succeeds: nat -> bool, start: nat, n: nat, inFlight: set<nat>, order: seq<nat>, failed: nat, k: nat)
    requires Collected(succeeds, start, n, inFlight, order, failed) && k in inFlight
    ensures if Succeeded(succeeds, start, k)
            then Collected(succeeds, start, n, inFlight - {k}, order + [k], failed)
            else Collected(succeeds, start, n, inFlight - {k}, order, failed + 1)
  {
  }

  lemma AllCollected(succeeds: nat -> bool, start: nat, conns: seq<Id>, order: seq<nat>, failed: nat, notification: nat)
    requires Collected(succeeds, start, |conns|, {}, order, failed)
    ensures |order| == CountOk(succeeds, start, |conns|) && Within(order, |conns|)
    ensures multiset(Tracks(notification, conns, order)) == multiset(Deliveries(succeeds, start, notification, conns))
  {
    forall i | 0 <= i < |order|
      ensures order[i] < |conns|
    {
      assert order[i] in order;
    }
    assert Elements(order) == Successes(succeeds, start, |conns|);
    SuccessesCount(succeeds, start, |conns|);
    NoRepeatsCount(order);
    CompletionOrderUnobservable(notification, conns, order, InOrder(succeeds, start, |conns|));
    InOrderDeliveries(succeeds, start, notification, conns, |conns|);
  }

  /** The counters and the tracker calls agree with what has come in. */
  ghost predicate Tallied(
    conns: seq<Id>, notification: nat, tracking: bool, order: seq<nat>, delivered: nat, tracks: seq<Track>)
  {
    && delivered == |order| && Within(order, |conns|)
    && tracks == if tracking then Tracks(notification, conns, order) else []
  }

  /** The first `n` connections have been sent to, and `inFlight` is what is still out. */
  ghost predicate Underway(
    succeeds: nat -> bool, start: nat, conns: seq<Id>, notification: nat, tracking: bool, limit: nat,
    n: nat, inFlight: set<nat>, o: Sends)
  {
    && n <= |conns| && Sent(o.events) == conns[..n] && InFlight(o.events) == inFlight
    && Legal(succeeds, start, o.events, limit)
    && Collected(succeeds, start, n, inFlight, Arrived(o.events), o.failed)
    && Tallied(conns, notification, tracking, Arrived(o.events), o.delivered, o.tracks)
  }

  /** Every connection was sent to once and in order, every send came back once, no more than `limit` were in
      flight at a time, and the counters and the calls of the tracker follow what came back. */
  ghost predicate AllSent(
    succeeds: nat -> bool, start: nat, conns: seq<Id>, notification: nat, tracking: bool, limit: nat, o: Sends)
  {
    && Sent(o.events) == conns && InFlight(o.events) == {} && Legal(succeeds, start, o.events, limit)
    && o.delivered == CountOk(succeeds, start, |conns|) && o.delivered + o.failed == |conns|
    && Tallied(conns, notification, tracking, Arrived(o.events), o.delivered, o.tracks)
    && multiset(o.tracks) == multiset(if tracking then Deliveries(succeeds, start, notification, conns) else [])
  }

  lemma UnderwayEnds(
    succeeds: nat -> bool, start: nat, conns: seq<Id>, notification: nat, tracking: bool, limit: nat, o: Sends)
    requires Underway(succeeds, start, conns, notification, tracking, limit, |conns|, {}, o)
    ensures AllSent(succeeds, start, conns, notification, tracking, limit, o)
  {
    assert conns[..|conns|] == conns;
    AllCollected(succeeds, start, conns, Arrived(o.events), o.failed, notification);
  }

  lemma UnderwayStarts(
    succeeds: nat -> bool, start: nat, conns: seq<Id>, notification: nat, tracking: bool, limit: nat,
    n: nat, inFlight: set<nat>, o: Sends)
    requires Underway(succeeds, start, conns, notification, tracking, limit, n, inFlight, o)
    requires n < |conns| && |inFlight| < limit
    ensures Underway(succeeds, start, conns, notification, tracking, limit, n + 1, inFlight + {n},
                     o.(events := o.events + [Started(conns[n])]))
    ensures |inFlight + {n}| == |inFlight| + 1
  {
    EventStarts(succeeds, start, o.events, limit, conns[n]);
    StartOne(succeeds, start, n, inFlight, Arrived(o.events), o.failed);
    PrefixNext(conns, n);
  }

  lemma PrefixNext(conns: seq<Id>, n: nat)
    requires n < |conns|
    ensures conns[..n + 1] == conns[..n] + [conns[n]] && |conns[..n]| == n
  {
  }

  /** What is counted and tracked when the send at a position comes back. */
  function Counted(conns: seq<Id>, notification: nat, tracking: bool, k: nat, ok: bool, o: Sends): Sends
    requires k < |conns|
  {
    Sends(if ok then o.delivered + 1 else o.delivered,
          if ok then o.failed else o.failed + 1,
          if ok && tracking then o.tracks + [Track(notification, conns[k])] else o.tracks,
          o.events + [Finished(k, ok)])
  }

  lemma TalliedNext(conns: seq<Id>, notification: nat, tracking: bool, order: seq<nat>, k: nat, o: Sends)
    requires Tallied(conns, notification, tracking, order, o.delivered, o.tracks) && k < |conns|
    ensures var o' := Counted(conns, notification, tracking, k, true, o);
      Tallied(conns, notification, tracking, order + [k], o'.delivered, o'.tracks)
  {
  }

  lemma UnderwayCollects(
    succeeds: nat -> bool, start: nat, conns: seq<Id>, notification: nat, tracking: bool, limit: nat,
    n: nat, inFlight: set<nat>, k: nat, o: Sends)
    requires Underway(succeeds, start, conns, notification, tracking, limit, n, inFlight, o)
    requires k in inFlight && |inFlight| <= limit
    ensures k < |conns|
    ensures Underway(succeeds, start, conns, notification, tracking, limit, n, inFlight - {k},
                     Counted(conns, notification, tracking, k, Succeeded(succeeds, start, k), o))
  {
    EventFinishes(succeeds, start, o.events, limit, k);
    CollectOne(succeeds, start, n, inFlight, Arrived(o.events), o.failed, k);
    TalliedNext(conns, notification, tracking, Arrived(o.events), k, o);
  }

  /** The send at position `k` comes back: it is counted, and tracked if it succeeded. */
  method CollectSend(
    succeeds: nat -> bool, start: nat, conns: seq<Id>, notification: nat, tracking: bool, k: nat, o: Sends)
    returns (o': Sends)
    requires k < |conns|
    ensures o' == Counted(conns, notification, tracking, k, Succeeded(succeeds, start, k), o)
  {
    var ok := Succeeded(succeeds, start, k);
    o' := o.(events := o.events + [Finished(k, ok)]);
    if ok {
      o' := o'.(delivered := o.delivered + 1);
      if tracking {
        o' := o'.(tracks := o.tracks + [Track(notification, conns[k])]);
      }
    } else {
      o' := o'.(failed := o.failed + 1);
    }
  }

  /** One after the other, for at most three connections. */
  method SendSequentially(succeeds: nat -> bool, start: nat, conns: seq<Id>, notification: nat, tracking: bool)
    returns (o: Sends)
    ensures AllSent(succeeds, start, conns, notification, tracking, 1, o)
  {
    o := Sends(0, 0, [], []);
    for i := 0 to |conns|
      invariant Underway(succeeds, start, conns, notification, tracking, 1, i, {}, o)
    {
      UnderwayStarts(succeeds, start, conns, notification, tracking, 1, i, {}, o);
      o := o.(events := o.events + [Started(conns[i])]);
      UnderwayCollects(succeeds, start, conns, notification, tracking, 1, i + 1, {} + {i}, i, o);
      assert {} + {i} - {i} == {};
      o := CollectSend(succeeds, start, conns, notification, tracking, i, o);
    }
    UnderwayEnds(succeeds, start, conns, notification, tracking, 1, o);
  }

  /** Takes sends that came back, in any order, until fewer than `bound` are in flight. */
  method CollectUntil(
    succeeds: nat -> bool, start: nat, conns: seq<Id>, notification: nat, tracking: bool, ghost n: nat,
    bound: nat, futures: set<nat>, o: Sends)
    returns (futures': set<nat>, o': Sends)
    requires bound > 0 && |futures| <= MAX_CONCURRENT_SENDS
    requires Underway(succeeds, start, conns, notification, tracking, MAX_CONCURRENT_SENDS, n, futures, o)
    ensures |futures'| < bound
    ensures Underway(succeeds, start, conns, notification, tracking, MAX_CONCURRENT_SENDS, n, futures', o')
  {
    futures', o' := futures, o;
    var pending := |futures|;
    while pending >= bound
      invariant pending == |futures'| <= MAX_CONCURRENT_SENDS
      invariant Underway(succeeds, start, conns, notification, tracking, MAX_CONCURRENT_SENDS, n, futures', o')
    {
      var k :| k in futures';
      UnderwayCollects(succeeds, start, conns, notification, tracking, MAX_CONCURRENT_SENDS, n, futures', k, o');
      o' := CollectSend(succeeds, start, conns, notification, tracking, k, o');
      futures' := futures' - {k};
      pending := pending - 1;
    }
  }

  /** Many at a time: sends are started in order, come back in any order, and are collected one by one
      whenever the window is full, and at the end. */
  method SendWindowed(succeeds: nat -> bool, start: nat, conns: seq<Id>, notification: nat, tracking: bool)
    returns (o: Sends)
    ensures AllSent(succeeds, start, conns, notification, tracking, MAX_CONCURRENT_SENDS, o)
  {
    o := Sends(0, 0, [], []);
    var futures: set<nat> := {};
    for i := 0 to |conns|
      invariant |futures| < MAX_CONCURRENT_SENDS
      invariant Underway(succeeds, start, conns, notification, tracking, MAX_CONCURRENT_SENDS, i, futures, o)
    {
      UnderwayStarts(succeeds, start, conns, notification, tracking, MAX_CONCURRENT_SENDS, i, futures, o);
      o := o.(events := o.events + [Started(conns[i])]);
      futures := futures + {i};
      futures, o := CollectUntil(
        succeeds, start, conns, notification, tracking, i + 1, MAX_CONCURRENT_SENDS, futures, o);
    }
    futures, o := CollectUntil(succeeds, start, conns, notification, tracking, |conns|, 1, futures, o);
    UnderwayEnds(succeeds, start, conns, notification, tracking, MAX_CONCURRENT_SENDS, o);
  }

  // ---- who a notification is for ----

  predicate InTenant(connections: Connections, id: Id, tenant: Option<string>) {
    id in connections && (tenant.None? || connections[id].tenantId == tenant.value)
  }

  function TenantFilter(connections: Connections, ids: seq<Id>, tenant: Option<string>): seq<Id> {
    if ids == [] then []
    else
      var last := |ids| - 1;
      TenantFilter(connections, ids[..last], tenant)
        + if InTenant(connections, ids[last], tenant) then [ids[last]] else []
  }

  lemma {:induction false} TenantFilterKeeps(connections: Connections, ids: seq<Id>, tenant: Option<string>)
    ensures forall c :: c in TenantFilter(connections, ids, tenant) <==> c in ids && InTenant(connections, c, tenant)
    ensures NoRepeats(ids) ==> NoRepeats(TenantFilter(connections, ids, tenant))
  {
    if ids != [] {
      var last := |ids| - 1;
      TenantFilterKeeps(connections, ids[..last], tenant);
      assert ids == ids[..last] + [ids[last]];
    }
  }

  /** The queue key of a user: tenants other than the default one are put in front. */
  function TenantScopedKey(tenant: string, user: string): string {
    if tenant == DEFAULT_TENANT_ID then user else tenant + ":" + user
  }

  function TenantQueueKey(tenant: Option<string>, user: string): string {
    TenantScopedKey(if tenant.Some? then tenant.value else DEFAULT_TENANT_ID, user)
  }

  /** The part of the connection manager that user lookups read. */
  datatype Directory = Directory(connections: Connections, userIndex: map<string, seq<Id>>)

  function UserConns(dir: Directory, user: string, tenant: Option<string>): seq<Id> {
    TenantFilter(dir.connections, if user in dir.userIndex then dir.userIndex[user] else [], tenant)
  }

  /** A lookup without a tenant finds all of the user's connections, as the index lists them; with a tenant,
      those of the tenant; each once. */
  lemma UserConnsExactly(dir: Directory, user: string, tenant: Option<string>)
    requires UserIndexed(dir.connections, dir.userIndex)
    ensures var found := UserConns(dir, user, tenant);
      && NoRepeats(found)
      && (forall c :: c in found <==>
            c in dir.connections && dir.connections[c].userId == user
            && (tenant == None || dir.connections[c].tenantId == tenant.value))
      && (tenant == None ==> found == if user in dir.userIndex then dir.userIndex[user] else [])
  {
    var ids := if user in dir.userIndex then dir.userIndex[user] else [];
    UserCount(dir.connections, dir.userIndex, user);
    TenantFilterKeeps(dir.connections, ids, tenant);
    assert forall c :: c in ids <==> c in OfUser(dir.connections, user) by {
      assert forall c :: c in ids <==> c in Elements(ids);
      assert Elements(ids) == OfUser(dir.connections, user);
    }
    if tenant == None {
      NoTenantKeepsAll(dir.connections, ids);
    }
  }

  lemma {:induction false} NoTenantKeepsAll(connections: Connections, ids: seq<Id>)
    requires forall c :: c in ids ==> c in connections
    ensures TenantFilter(connections, ids, None) == ids
  {
    if ids != [] {
      var last := |ids| - 1;
      NoTenantKeepsAll(connections, ids[..last]);
      assert ids == ids[..last] + [ids[last]];
    }
  }

  /** The first `n` parts one after the other. */
  function Concat<T>(parts: seq<seq<T>>, n: nat): seq<T>
    requires n <= |parts|
  {
    if n == 0 then [] else Concat(parts, n - 1) + parts[n - 1]
  }

  lemma Assoc<T>(a: seq<T>, b: seq<T>, c: seq<T>)
    ensures (a + b) + c == a + (b + c)
  {
  }

  lemma {:induction false} ConcatSplit<T>(parts: seq<seq<T>>, batch: seq<seq<T>>, done: nat, next: nat, n: nat)
    requires done <= next <= |parts| && batch == parts[done..next] && n <= next - done
    ensures Concat(parts, done + n) == Concat(parts, done) + Concat(batch, n)
    decreases n
  {
    if n > 0 {
      ConcatSplit(parts, batch, done, next, n - 1);
      assert batch[n - 1] == parts[done + n - 1];
      Assoc(Concat(parts, done), Concat(batch, n - 1), batch[n - 1]);
    }
  }

  function ConnParts(dir: Directory, users: seq<string>, tenant: Option<string>): seq<seq<Id>> {
    seq(|users|, i requires 0 <= i < |users| => UserConns(dir, users[i], tenant))
  }

  /** The connections of a list of users, in order and with repetitions. */
  function FlatConns(dir: Directory, users: seq<string>, tenant: Option<string>): seq<Id> {
    Concat(ConnParts(dir, users, tenant), |users|)
  }

  function OfflineKey(dir: Directory, user: string, tenant: Option<string>): seq<string> {
    if UserConns(dir, user, tenant) == [] then [TenantQueueKey(tenant, user)] else []
  }

  function OfflineParts(dir: Directory, users: seq<string>, tenant: Option<string>): seq<seq<string>> {
    seq(|users|, i requires 0 <= i < |users| => OfflineKey(dir, users[i], tenant))
  }

  /** The queue keys of the users without a connection, in order and with repetitions. */
  function OfflineKeys(dir: Directory, users: seq<string>, tenant: Option<string>): seq<string> {
    Concat(OfflineParts(dir, users, tenant), |users|)
  }

  lemma TrackedTwice(t0: seq<Track>, t1: seq<Track>, t2: seq<Track>, x: seq<Track>, y: seq<Track>)
    requires multiset(t1) == multiset(t0 + x) && multiset(t2) == multiset(t1 + y)
    ensures multiset(t2) == multiset(t0 + (x + y))
  {
    assert t0 + (x + y) == (t0 + x) + y;
  }

  lemma ConnPartsSlice(dir: Directory, users: seq<string>, done: nat, next: nat, tenant: Option<string>)
    requires done <= next <= |users|
    ensures ConnParts(dir, users[done..next], tenant) == ConnParts(dir, users, tenant)[done..next]
  {
    forall i | 0 <= i < next - done
      ensures ConnParts(dir, users[done..next], tenant)[i] == ConnParts(dir, users, tenant)[done..next][i]
    {
      assert users[done..next][i] == users[done + i];
    }
  }

  lemma OfflinePartsSlice(dir: Directory, users: seq<string>, done: nat, next: nat, tenant: Option<string>)
    requires done <= next <= |users|
    ensures OfflineParts(dir, users[done..next], tenant) == OfflineParts(dir, users, tenant)[done..next]
  {
    forall i | 0 <= i < next - done
      ensures OfflineParts(dir, users[done..next], tenant)[i] == OfflineParts(dir, users, tenant)[done..next][i]
    {
      assert users[done..next][i] == users[done + i];
    }
  }

  lemma ConcatBatch<T>(parts: seq<seq<T>>, batch: seq<seq<T>>, done: nat, next: nat)
    requires done <= next <= |parts| && batch == parts[done..next]
    ensures Concat(parts, next) == Concat(parts, done) + Concat(batch, |batch|)
  {
    ConcatSplit(parts, batch, done, next, next - done);
  }

  lemma BatchSplit(dir: Directory, users: seq<string>, done: nat, next: nat, tenant: Option<string>)
    requires done <= next <= |users|
    ensures Concat(ConnParts(dir, users, tenant), next)
         == Concat(ConnParts(dir, users, tenant), done) + FlatConns(dir, users[done..next], tenant)
    ensures Concat(OfflineParts(dir, users, tenant), next)
         == Concat(OfflineParts(dir, users, tenant), done) + OfflineKeys(dir, users[done..next], tenant)
  {
    ConnPartsSlice(dir, users, done, next, tenant);
    ConcatBatch(ConnParts(dir, users, tenant), ConnParts(dir, users[done..next], tenant), done, next);
    OfflinePartsSlice(dir, users, done, next, tenant);
    ConcatBatch(OfflineParts(dir, users, tenant), OfflineParts(dir, users[done..next], tenant), done, next);
  }

  /** Sending to a list of users attempts and queues what sending to each of them in turn does. */
  lemma UsersOneByOne(dir: Directory, users: seq<string>, user: string, tenant: Option<string>)
    ensures FlatConns(dir, [], tenant) == [] && OfflineKeys(dir, [], tenant) == []
    ensures FlatConns(dir, users + [user], tenant) == FlatConns(dir, users, tenant) + UserConns(dir, user, tenant)
    ensures OfflineKeys(dir, users + [user], tenant)
         == OfflineKeys(dir, users, tenant)
            + if UserConns(dir, user, tenant) == [] then [TenantQueueKey(tenant, user)] else []
  {
    var all, n := users + [user], |users|;
    assert all[..n] == users && all[n..n + 1] == [user];
    FirstUsers(dir, all, n, tenant);
    BatchSplit(dir, all, n, n + 1, tenant);
    SingleUser(dir, user, tenant);
    assert |ConnParts(dir, all, tenant)| == |OfflineParts(dir, all, tenant)| == n + 1;
  }

  lemma FirstUsers(dir: Directory, users: seq<string>, n: nat, tenant: Option<string>)
    requires n <= |users|
    ensures Concat(ConnParts(dir, users, tenant), n) == FlatConns(dir, users[..n], tenant)
    ensures Concat(OfflineParts(dir, users, tenant), n) == OfflineKeys(dir, users[..n], tenant)
  {
    assert users[0..n] == users[..n];
    BatchSplit(dir, users, 0, n, tenant);
    NoParts(ConnParts(dir, users, tenant), FlatConns(dir, users[..n], tenant));
    NoParts(OfflineParts(dir, users, tenant), OfflineKeys(dir, users[..n], tenant));
  }

  lemma NoParts<T>(parts: seq<seq<T>>, rest: seq<T>)
    ensures Concat(parts, 0) + rest == rest
  {
  }

  lemma SingleUser(dir: Directory, user: string, tenant: Option<string>)
    ensures FlatConns(dir, [user], tenant) == UserConns(dir, user, tenant)
    ensures OfflineKeys(dir, [user], tenant)
         == if UserConns(dir, user, tenant) == [] then [TenantQueueKey(tenant, user)] else []
  {
    assert Concat(ConnParts(dir, [user], tenant), 0) == [];
    assert Concat(OfflineParts(dir, [user], tenant), 0) == [];
  }

  datatype DeliveryResult = DeliveryResult(notification: nat, delivered: nat, failed: nat) {
    predicate Success() { delivered > 0 }
  }

  class NotificationDispatcher {
    const manager: ConnectionManager
    /** Whether a queue backend is set and enabled, and an acknowledgement tracker is set. */
    const queueEnabled: bool
    const tracking: bool
    /** Whether the k-th send attempt of this dispatcher's life succeeds, and its k-th enqueue attempt. */
    const succeeds: nat -> bool
    const enqueues: nat -> bool
    /** Every send attempt, every call of the tracker and every enqueue attempt so far, in order. */
    var attempts: seq<Id>
    var tracked: seq<Track>
    var queued: seq<string>
    var totalSent: nat
    var totalDelivered: nat
    var totalFailed: nat
    var userNotifications: nat
    var broadcastNotifications: nat
    var channelNotifications: nat

    /** The counters account for every attempt, and every delivery is tracked. */
    ghost predicate Settled()
      reads this
    {
      && totalDelivered == CountOk(succeeds, 0, |attempts|)
      && totalDelivered + totalFailed == |attempts|
      && (tracking ==> |tracked| == totalDelivered)
    }

    constructor (
      manager: ConnectionManager, queueEnabled: bool, tracking: bool, succeeds: nat -> bool, enqueues: nat -> bool)
      requires manager.Valid()
      ensures Settled() && this.manager == manager && attempts == [] && tracked == [] && queued == []
    {
      this.manager, this.queueEnabled, this.tracking := manager, queueEnabled, tracking;
      this.succeeds, this.enqueues := succeeds, enqueues;
      attempts, tracked, queued := [], [], [];
      totalSent, totalDelivered, totalFailed := 0, 0, 0;
      userNotifications, broadcastNotifications, channelNotifications := 0, 0, 0;
    }

    function Dir(): Directory
      reads manager
    {
      Directory(manager.connections, manager.userIndex)
    }

    method GetUserConnectionsFiltered(user: string, tenant: Option<string>) returns (conns: seq<Id>)
      ensures conns == UserConns(Dir(), user, tenant)
    {
      conns := [];
      var connections := manager.connections;
      var ids := if user in manager.userIndex then manager.userIndex[user] else [];
      for i := 0 to |ids|
        invariant conns == TenantFilter(connections, ids[..i], tenant)
      {
        assert ids[..i + 1][..i] == ids[..i];
        if InTenant(connections, ids[i], tenant) {
          conns := conns + [ids[i]];
        }
      }
      assert ids[..|ids|] == ids;
    }

    /** `o` is what the sends of this call count, track and show on the transport. */
    method SendToConnections(conns: seq<Id>, notification: nat) returns (o: Sends)
      modifies this`attempts, this`tracked
      ensures attempts == old(attempts) + Sent(o.events) == old(attempts) + conns
      ensures tracked == old(tracked) + o.tracks
      ensures SentOff(conns, notification, |old(attempts)|, o.delivered, o.failed, old(tracked), tracked)
      ensures AllSent(succeeds, |old(attempts)|, conns, notification, tracking,
                      if |conns| <= 3 then 1 else 100, o)
    {
      if conns == [] {
        return Sends(0, 0, [], []);
      }
      if |conns| <= 3 {
        o := SendSequentially(succeeds, |attempts|, conns, notification, tracking);
      } else {
        o := SendWindowed(succeeds, |attempts|, conns, notification, tracking);
      }
      attempts := attempts + Sent(o.events);
      tracked := tracked + o.tracks;
    }

    /** The two counts, which is all that the callers use. */
    method SendAndCount(conns: seq<Id>, notification: nat) returns (delivered: nat, failed: nat)
      modifies this`attempts, this`tracked
      ensures attempts == old(attempts) + conns
      ensures SentOff(conns, notification, |old(attempts)|, delivered, failed, old(tracked), tracked)
    {
      var o := SendToConnections(conns, notification);
      delivered, failed := o.delivered, o.failed;
    }

    /** The result names the notification and the increase of the two delivery counters. */
    predicate Reports(r: DeliveryResult, notification: nat, delivered: nat, failed: nat)
      reads this
    {
      r.notification == notification && totalDelivered == delivered + r.delivered && totalFailed == failed + r.failed
    }

    method Record(notification: nat, delivered: nat, failed: nat) returns (r: DeliveryResult)
      modifies this`totalSent, this`totalDelivered, this`totalFailed
      ensures totalSent == old(totalSent) + 1
      ensures totalDelivered == old(totalDelivered) + delivered && totalFailed == old(totalFailed) + failed
      ensures r == DeliveryResult(notification, delivered, failed)
    {
      totalSent := totalSent + 1;
      totalDelivered := totalDelivered + delivered;
      totalFailed := totalFailed + failed;
      r := DeliveryResult(notification, delivered, failed);
    }

    method Deliver(conns: seq<Id>, notification: nat) returns (r: DeliveryResult)
      requires Settled()
      modifies this`attempts, this`tracked, this`totalSent, this`totalDelivered, this`totalFailed
      ensures Settled()
      ensures attempts == old(attempts) + conns
      ensures multiset(tracked) == multiset(old(tracked) + TrackerCalls(conns, notification, |old(attempts)|))
      ensures Reports(r, notification, old(totalDelivered), old(totalFailed))
      ensures totalSent == old(totalSent) + 1
    {
      var delivered, failed := SendAndCount(conns, notification);
      CountOkSplit(succeeds, 0, |old(attempts)|, |conns|);
      r := Record(notification, delivered, failed);
    }

    method SendToUser(user: string, notification: nat, tenant: Option<string>) returns (r: DeliveryResult)
      requires Settled()
      modifies this
      ensures Settled()
      ensures attempts == old(attempts) + UserConns(Dir(), user, tenant)
      ensures queued == old(queued)
        + if queueEnabled && UserConns(Dir(), user, tenant) == [] then [TenantQueueKey(tenant, user)] else []
      ensures multiset(tracked)
        == multiset(old(tracked) + TrackerCalls(UserConns(Dir(), user, tenant), notification, |old(attempts)|))
      ensures Reports(r, notification, old(totalDelivered), old(totalFailed))
      ensures userNotifications == old(userNotifications) + 1 && totalSent == old(totalSent) + 1
    {
      var conns := GetUserConnectionsFiltered(user, tenant);
      if conns == [] && queueEnabled {
        var accepted := enqueues(|queued|);
        queued := queued + [TenantQueueKey(tenant, user)];
        if accepted {
          totalSent := totalSent + 1;
          userNotifications := userNotifications + 1;
          return DeliveryResult(notification, 0, 0);
        }
      }
      r := Deliver(conns, notification);
      userNotifications := userNotifications + 1;
    }

    /** The connections of a batch of users, and the queue keys of those who have none. */
    method CollectBatch(users: seq<string>, tenant: Option<string>) returns (conns: seq<Id>, offline: seq<string>)
      ensures conns == FlatConns(Dir(), users, tenant)
      ensures offline == OfflineKeys(Dir(), users, tenant)
    {
      conns, offline := [], [];
      for i := 0 to |users|
        invariant conns == Concat(ConnParts(Dir(), users, tenant), i)
        invariant offline == Concat(OfflineParts(Dir(), users, tenant), i)
      {
        var found := GetUserConnectionsFiltered(users[i], tenant);
        if found == [] {
          offline := offline + [TenantQueueKey(tenant, users[i])];
        } else {
          conns := conns + found;
        }
      }
    }

    method EnqueueAll(keys: seq<string>) returns (queuedCount: nat)
      modifies this`queued
      ensures queued == old(queued) + keys
      ensures queuedCount == CountOk(enqueues, |old(queued)|, |keys|)
    {
      queuedCount := 0;
      for i := 0 to |keys|
        invariant queued == old(queued) + keys[..i]
        invariant queuedCount == CountOk(enqueues, |old(queued)|, i)
      {
        if enqueues(|queued|) {
          queuedCount := queuedCount + 1;
        }
        queued := queued + [keys[i]];
      }
    }

    /** One batch: the offline users are queued for, then all connections of the batch are sent to. */
    method SendToBatch(users: seq<string>, notification: nat, tenant: Option<string>)
      returns (delivered: nat, failed: nat, queuedCount: nat)
      modifies this`attempts, this`tracked, this`queued
      ensures attempts == old(attempts) + FlatConns(Dir(), users, tenant)
      ensures queued == old(queued) + Enqueued(OfflineKeys(Dir(), users, tenant))
      ensures SentOff(FlatConns(Dir(), users, tenant), notification, |old(attempts)|, delivered, failed,
        old(tracked), tracked)
    {
      var conns, offline := CollectBatch(users, tenant);
      queuedCount := 0;
      if offline != [] && queueEnabled {
        queuedCount := EnqueueAll(offline);
      }
      delivered, failed := 0, 0;
      if conns != [] {
        delivered, failed := SendAndCount(conns, notification);
      }
    }

    /** Users are handled a hundred at a time. */
    method SendToUsers(users: seq<string>, notification: nat, tenant: Option<string>) returns (r: DeliveryResult)
      requires Settled()
      modifies this
      ensures Settled()
      ensures attempts == old(attempts) + FlatConns(Dir(), users, tenant)
      ensures queued == old(queued) + if queueEnabled then OfflineKeys(Dir(), users, tenant) else []
      ensures multiset(tracked)
        == multiset(old(tracked) + TrackerCalls(FlatConns(Dir(), users, tenant), notification, |old(attempts)|))
      ensures Reports(r, notification, old(totalDelivered), old(totalFailed))
      ensures userNotifications == old(userNotifications) + 1 && totalSent == old(totalSent) + 1
    {
      var delivered, failed := SendInBatches(users, notification, tenant);
      CountOkSplit(succeeds, 0, |old(attempts)|, |FlatConns(Dir(), users, tenant)|);
      r := Record(notification, delivered, failed);
      userNotifications := userNotifications + 1;
    }

    method SendInBatches(users: seq<string>, notification: nat, tenant: Option<string>)
      returns (delivered: nat, failed: nat)
      modifies this`attempts, this`tracked, this`queued
      ensures attempts == old(attempts) + FlatConns(Dir(), users, tenant)
      ensures queued == old(queued) + Enqueued(OfflineKeys(Dir(), users, tenant))
      ensures SentOff(FlatConns(Dir(), users, tenant), notification, |old(attempts)|, delivered, failed,
        old(tracked), tracked)
    {
      delivered, failed := 0, 0;
      var done := 0;
      ghost var dir := Dir();
      ghost var conns, offline := ConnParts(dir, users, tenant), OfflineParts(dir, users, tenant);
      while done < |users|
        invariant done <= |users| && dir == Dir()
        invariant Through(Concat(conns, done), Concat(offline, done), notification,
                          old(attempts), old(queued), old(tracked), attempts, queued, tracked, delivered, failed)
      {
        var next := if done + USER_BATCH_SIZE <= |users| then done + USER_BATCH_SIZE else |users|;
        var batch := users[done..next];
        ghost var a, q, t := attempts, queued, tracked;
        var d, f, queuedCount := SendToBatch(batch, notification, tenant);
        BatchSplit(dir, users, done, next, tenant);
        ThroughNext(Concat(conns, done), FlatConns(dir, batch, tenant),
                    Concat(offline, done), OfflineKeys(dir, batch, tenant),
                    notification, old(attempts), old(queued), old(tracked), a, q, t, attempts, queued, tracked,
                    delivered, failed, d, f);
        delivered, failed := delivered + d, failed + f;
        done := next;
      }
    }

    /** Between two states of the logs, exactly these sends and enqueues were made. */
    ghost predicate Through(
      sent: seq<Id>, keys: seq<string>, notification: nat,
      a0: seq<Id>, q0: seq<string>, t0: seq<Track>, a: seq<Id>, q: seq<string>, t: seq<Track>,
      delivered: nat, failed: nat)
    {
      && a == a0 + sent && q == q0 + Enqueued(keys) && SentOff(sent, notification, |a0|, delivered, failed, t0, t)
    }

    /** The enqueue attempts for these keys, none if there is no queue. */
    function Enqueued(keys: seq<string>): seq<string> {
      if queueEnabled then keys else []
    }

    /** The logs after one more batch. */
    lemma ThroughNext(
      sent: seq<Id>, more: seq<Id>, keys: seq<string>, moreKeys: seq<string>, notification: nat,
      a0: seq<Id>, q0: seq<string>, t0: seq<Track>, a: seq<Id>, q: seq<string>, t: seq<Track>,
      a': seq<Id>, q': seq<string>, t': seq<Track>, delivered: nat, failed: nat, d: nat, f: nat)
      requires Through(sent, keys, notification, a0, q0, t0, a, q, t, delivered, failed)
      requires Through(more, moreKeys, notification, a, q, t, a', q', t', d, f)
      ensures Through(sent + more, keys + moreKeys, notification, a0, q0, t0, a', q', t', delivered + d, failed + f)
    {
      Assoc(a0, sent, more);
      Assoc(q0, Enqueued(keys), Enqueued(moreKeys));
      SentOffTwice(sent, more, notification, |a0|, delivered, failed, d, f, t0, t, t');
    }

    /** What becomes known of sends to `conns` that began with attempt number `start`. */
    ghost predicate SentOff(
      conns: seq<Id>, notification: nat, start: nat, delivered: nat, failed: nat, before: seq<Track>, after: seq<Track>)
    {
      && delivered == CountOk(succeeds, start, |conns|) && delivered + failed == |conns|
      && (tracking ==> |after| == |before| + delivered)
      && multiset(after) == multiset(before + TrackerCalls(conns, notification, start))
    }

    /** The calls of the tracker that the sends to `conns` lead to, without a tracker none. */
    function TrackerCalls(conns: seq<Id>, notification: nat, start: nat): seq<Track> {
      if tracking then Deliveries(succeeds, start, notification, conns) else []
    }

    lemma SentOffTwice(
      a: seq<Id>, b: seq<Id>, notification: nat, start: nat,
      delivered: nat, failed: nat, d: nat, f: nat, t0: seq<Track>, t1: seq<Track>, t2: seq<Track>)
      requires SentOff(a, notification, start, delivered, failed, t0, t1)
      requires SentOff(b, notification, start + |a|, d, f, t1, t2)
      ensures SentOff(a + b, notification, start, delivered + d, failed + f, t0, t2)
    {
      CountOkSplit(succeeds, start, |a|, |b|);
      if tracking {
        DeliveriesSplit(succeeds, start, notification, a, b);
        TrackedTwice(t0, t1, t2, Deliveries(succeeds, start, notification, a),
          Deliveries(succeeds, start + |a|, notification, b));
      }
    }

    method BroadcastForTenant(notification: nat, tenant: Option<string>) returns (r: DeliveryResult)
      requires manager.Valid() && Settled()
      modifies this
      ensures Settled()
      ensures |attempts| >= |old(attempts)| && attempts[..|old(attempts)|] == old(attempts)
      ensures var sent := attempts[|old(attempts)|..];
        NoRepeats(sent) && Elements(sent) ==
          if tenant.Some? then OfTenant(manager.connections, tenant.value) else manager.connections.Keys
      ensures multiset(tracked)
        == multiset(old(tracked) + TrackerCalls(attempts[|old(attempts)|..], notification, |old(attempts)|))
      ensures queued == old(queued)
      ensures Reports(r, notification, old(totalDelivered), old(totalFailed))
      ensures broadcastNotifications == old(broadcastNotifications) + 1 && totalSent == old(totalSent) + 1
    {
      var conns;
      if tenant.Some? {
        conns := manager.GetTenantConnections(tenant.value);
      } else {
        conns := Listing(manager.connections.Keys);
      }
      r := Deliver(conns, notification);
      assert attempts[|old(attempts)|..] == conns;
      broadcastNotifications := broadcastNotifications + 1;
    }

    /** The connections subscribed to one of the channels. */
    function Union(channels: seq<string>): set<Id>
      reads this, manager
    {
      set c | c in manager.connections && exists ch :: ch in channels && ch in manager.connections[c].subscriptions
    }

    /** The connections subscribed to one of the channels, each once. */
    method CollectChannels(channels: seq<string>) returns (all: seq<Id>)
      requires manager.Valid()
      ensures NoRepeats(all) && Elements(all) == Union(channels)
    {
      var seen: set<Id> := {};
      all := [];
      for i := 0 to |channels|
        invariant NoRepeats(all) && Elements(all) == seen == Union(channels[..i])
      {
        var conns := manager.GetChannelConnections(channels[i]);
        assert channels[..i + 1] == channels[..i] + [channels[i]];
        assert Union(channels[..i + 1]) == Union(channels[..i]) + OfChannel(manager.connections, channels[i]);
        all, seen := AddUnseen(all, seen, conns);
      }
      assert channels[..|channels|] == channels;
    }

    method SendToChannels(channels: seq<string>, notification: nat) returns (r: DeliveryResult)
      requires manager.Valid() && Settled()
      modifies this
      ensures Settled()
      ensures |attempts| >= |old(attempts)| && attempts[..|old(attempts)|] == old(attempts)
      ensures var sent := attempts[|old(attempts)|..]; NoRepeats(sent) && Elements(sent) == Union(channels)
      ensures multiset(tracked)
        == multiset(old(tracked) + TrackerCalls(attempts[|old(attempts)|..], notification, |old(attempts)|))
      ensures queued == old(queued)
      ensures Reports(r, notification, old(totalDelivered), old(totalFailed))
      ensures channelNotifications == old(channelNotifications) + 1 && totalSent == old(totalSent) + 1
    {
      var all := CollectChannels(channels);
      r := Deliver(all, notification);
      assert attempts[|old(attempts)|..] == all;
      channelNotifications := channelNotifications + 1;
    }
  }

  /** Appends the ids not seen before. */
  method AddUnseen(all: seq<Id>, seen: set<Id>, ids: seq<Id>) returns (all': seq<Id>, seen': set<Id>)
    requires NoRepeats(all) && Elements(all) == seen
    ensures NoRepeats(all') && Elements(all') == seen' == seen + Elements(ids)
  {
    all', seen' := all, seen;
    for j := 0 to |ids|
      invariant NoRepeats(all') && Elements(all') == seen' == seen + Elements(ids[..j])
    {
      assert Elements(ids[..j + 1]) == Elements(ids[..j]) + {ids[j]};
      if ids[j] !in seen' {
        assert ids[j] !in Elements(all');
        assert Elements(all' + [ids[j]]) == Elements(all') + {ids[j]};
        seen' := seen' + {ids[j]};
        all' := all' + [ids[j]];
      }
    }
    assert ids[..|ids|] == ids;
  }
}
