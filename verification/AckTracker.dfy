/** The in-memory tracker of acknowledgements, call by call and with calls interleaved. */
module AckTrackers {
  import opened MachineInts

  type Id = nat

  /** What is known of a notification awaiting its acknowledgement; `sentAt` is in milliseconds. */
  datatype Pending = Pending(userId: string, connectionId: nat, sentAt: int)

  predicate Expired(p: Pending, timeoutSeconds: nat, now: int) {
    TruncDiv(now - p.sentAt, 1000) >= AsI64(timeoutSeconds)
  }

  function Latency(p: Pending, now: int): nat {
    Max(now - p.sentAt, 0)
  }

  /** The shared data: the map and the four counters. */
  datatype Book = Book(pending: map<Id, Pending>, tracked: nat, acked: nat, expired: nat, latencyMs: nat)

  function ExpiredIds(pending: map<Id, Pending>, timeoutSeconds: nat, now: int): set<Id> {
    set id | id in pending && Expired(pending[id], timeoutSeconds, now)
  }

  function Tracked(b: Book, id: Id, p: Pending): Book {
    b.(pending := b.pending[id := p], tracked := b.tracked + 1)
  }

  predicate Acknowledges(b: Book, id: Id, user: string) {
    id in b.pending && b.pending[id].userId == user
  }

  function Acknowledged(b: Book, id: Id, user: string, now: int): Book {
    if Acknowledges(b, id, user)
    then b.(pending := b.pending - {id}, acked := b.acked + 1, latencyMs := b.latencyMs + Latency(b.pending[id], now))
    else b
  }

  function Swept(b: Book, timeoutSeconds: nat, now: int): Book {
    var gone := ExpiredIds(b.pending, timeoutSeconds, now);
    b.(pending := b.pending - gone, expired := b.expired + |gone|)
  }

  datatype Stats = Stats(tracked: nat, acked: nat, expired: nat, pendingCount: nat, ackRate: real, avgLatencyMs: nat)

  class MemoryAckBackend {
    const enabled: bool
    const timeoutSeconds: nat
    var pending: map<Id, Pending>
    var totalTracked: nat
    var totalAcked: nat
    var totalExpired: nat
    var totalLatencyMs: nat

    function View(): Book
      reads this
    {
      Book(pending, totalTracked, totalAcked, totalExpired, totalLatencyMs)
    }

    constructor (enabled: bool, timeoutSeconds: nat)
      ensures View() == Book(map[], 0, 0, 0, 0) && this.enabled == enabled && this.timeoutSeconds == timeoutSeconds
    {
      this.enabled, this.timeoutSeconds := enabled, timeoutSeconds;
      pending, totalTracked, totalAcked, totalExpired, totalLatencyMs := map[], 0, 0, 0, 0;
    }

    method Track(id: Id, user: string, connection: nat, now: int)
      modifies this
      ensures View() == if enabled then Tracked(old(View()), id, Pending(user, connection, now)) else old(View())
    {
      if !enabled {
        return;
      }
      pending := pending[id := Pending(user, connection, now)];
      totalTracked := totalTracked + 1;
    }

    method Acknowledge(id: Id, user: string, now: int) returns (ok: bool)
      modifies this
      ensures ok == (enabled && Acknowledges(old(View()), id, user))
      ensures View() == if enabled then Acknowledged(old(View()), id, user, now) else old(View())
    {
      if !enabled {
        return false;
      }
      if id in pending {
        var p := pending[id];
        pending := pending - {id};
        if p.userId != user {
          pending := pending[id := p];
          assert pending == old(pending);
          return false;
        }
        var latencyMs := Latency(p, now);
        totalAcked := totalAcked + 1;
        totalLatencyMs := totalLatencyMs + latencyMs;
        return true;
      } else {
        return false;
      }
    }

    method CleanupExpired(now: int) returns (count: nat)
      modifies this
      ensures View() == if enabled then Swept(old(View()), timeoutSeconds, now) else old(View())
      ensures count == if enabled then |ExpiredIds(old(pending), timeoutSeconds, now)| else 0
    {
      if !enabled {
        return 0;
      }
      pending, count := RetainUnexpired(pending, timeoutSeconds, now);
      if count > 0 {
        totalExpired := totalExpired + count;
      }
    }

    method GetStats() returns (s: Stats)
      ensures s.tracked == totalTracked && s.acked == totalAcked && s.expired == totalExpired
      ensures s.pendingCount == |pending|
      ensures s.ackRate * (totalAcked + totalExpired) as real
           == if totalAcked + totalExpired > 0 then totalAcked as real else 0.0
      ensures totalAcked + totalExpired == 0 ==> s.ackRate == 1.0
      ensures totalAcked == 0 ==> s.avgLatencyMs == 0
      ensures totalAcked > 0 ==> 0 <= totalLatencyMs - s.avgLatencyMs * totalAcked < totalAcked
    {
      var completed := totalAcked + totalExpired;
      var rate := if completed > 0 then totalAcked as real / completed as real else 1.0;
      var avg := if totalAcked > 0 then totalLatencyMs / totalAcked else 0;
      s := Stats(totalTracked, totalAcked, totalExpired, |pending|, rate, avg);
    }
  }

  /** `retain` with a counter of the entries it drops. */
  method RetainUnexpired(pending: map<Id, Pending>, timeoutSeconds: nat, now: int)
    returns (kept: map<Id, Pending>, count: nat)
    ensures kept == pending - ExpiredIds(pending, timeoutSeconds, now)
    ensures count == |ExpiredIds(pending, timeoutSeconds, now)|
  {
    kept, count := pending, 0;
    var ids := pending.Keys;
    ghost var gone: set<Id> := {};
    while ids != {}
      invariant ids <= pending.Keys && gone !! ids && count == |gone|
      invariant forall id :: id in gone <==> id in pending && id !in ids && Expired(pending[id], timeoutSeconds, now)
      invariant kept == pending - gone
      decreases ids
    {
      var id :| id in ids;
      ids := ids - {id};
      if Expired(pending[id], timeoutSeconds, now) {
        count := count + 1;
        kept := kept - {id};
        gone := gone + {id};
      }
    }
    assert gone == ExpiredIds(pending, timeoutSeconds, now);
  }

  // ---- calls interleaved ----

  /** Where a thread stands between two accesses to the shared data. */
  datatype Phase =
    | Idle
    | Tracking(id: Id)                                    // inserted, not yet counted
    | Holding(id: Id, entry: Pending, user: string)       // removed, user not yet compared
    | Acking(id: Id, latencyMs: nat)                      // user matched, not yet counted
    | AddingLatency(latencyMs: nat)
    | Sweeping(removed: multiset<Id>)                     // removed so far, not yet counted

  /** The data, the threads, and a history: the insertions made by `track`, the acknowledgements that
      matched, the entries swept, the entries lost to a later insertion of the same id, and who was
      tracked for and who acknowledged what. */
  datatype State = State(
    book: Book,
    threads: seq<Phase>,
    inserted: multiset<Id>,
    matched: multiset<Id>,
    swept: multiset<Id>,
    overwritten: multiset<Id>,
    trackedFor: set<(Id, string)>,
    ackedBy: set<(Id, string)>)

  datatype Action =
    | TrackInsert(id: Id, entry: Pending)
    | TrackCount
    | AckRemove(id: Id, user: string)
    | AckCompare(now: int)
    | AckCount
    | AckLatency
    | SweepStart
    | SweepOne(id: Id, timeoutSeconds: nat, now: int)
    | SweepCount

  datatype Step = Step(thread: nat, action: Action)

  function Lost(b: Book, id: Id): multiset<Id> {
    if id in b.pending then multiset{id} else multiset{}
  }

  predicate At(s: State, i: nat, idle: bool) {
    i < |s.threads| && s.threads[i].Idle? == idle
  }

  function DoTrackInsert(s: State, i: nat, id: Id, p: Pending): State
    requires At(s, i, true)
  {
    s.(book := s.book.(pending := s.book.pending[id := p]), threads := s.threads[i := Tracking(id)],
       inserted := s.inserted + multiset{id}, overwritten := s.overwritten + Lost(s.book, id),
       trackedFor := s.trackedFor + {(id, p.userId)})
  }

  function DoTrackCount(s: State, i: nat): State
    requires At(s, i, false)
  {
    s.(book := s.book.(tracked := s.book.tracked + 1), threads := s.threads[i := Idle])
  }

  function DoAckRemove(s: State, i: nat, id: Id, user: string): State
    requires At(s, i, true)
  {
    if id !in s.book.pending then s
    else
      s.(book := s.book.(pending := s.book.pending - {id}),
         threads := s.threads[i := Holding(id, s.book.pending[id], user)])
  }

  function DoReinsert(s: State, i: nat, id: Id, p: Pending): State
    requires At(s, i, false)
  {
    s.(book := s.book.(pending := s.book.pending[id := p]), threads := s.threads[i := Idle],
       overwritten := s.overwritten + Lost(s.book, id))
  }

  function DoMatch(s: State, i: nat, id: Id, user: string, latencyMs: nat): State
    requires At(s, i, false)
  {
    s.(threads := s.threads[i := Acking(id, latencyMs)], matched := s.matched + multiset{id},
       ackedBy := s.ackedBy + {(id, user)})
  }

  /** The comparison of the users: on a mismatch the entry goes back. */
  function DoAckCompare(s: State, i: nat, now: int): State
    requires i < |s.threads| && s.threads[i].Holding?
  {
    var Holding(id, p, user) := s.threads[i];
    if p.userId != user then DoReinsert(s, i, id, p) else DoMatch(s, i, id, user, Latency(p, now))
  }

  function DoSweepStart(s: State, i: nat): State
    requires At(s, i, true)
  {
    s.(threads := s.threads[i := Sweeping(multiset{})])
  }

  function DoAckCount(s: State, i: nat, latencyMs: nat): State
    requires At(s, i, false)
  {
    s.(book := s.book.(acked := s.book.acked + 1), threads := s.threads[i := AddingLatency(latencyMs)])
  }

  function DoAckLatency(s: State, i: nat, latencyMs: nat): State
    requires At(s, i, false)
  {
    s.(book := s.book.(latencyMs := s.book.latencyMs + latencyMs), threads := s.threads[i := Idle])
  }

  function DoSweepOne(s: State, i: nat, removed: multiset<Id>, id: Id, timeoutSeconds: nat, now: int): State
    requires At(s, i, false)
  {
    if id in s.book.pending && Expired(s.book.pending[id], timeoutSeconds, now)
    then s.(book := s.book.(pending := s.book.pending - {id}),
            threads := s.threads[i := Sweeping(removed + multiset{id})], swept := s.swept + multiset{id})
    else s
  }

  function DoSweepCount(s: State, i: nat, removed: multiset<Id>): State
    requires At(s, i, false)
  {
    s.(book := s.book.(expired := s.book.expired + |removed|), threads := s.threads[i := Idle])
  }

  /** One atomic access by one thread; a thread not at that point does nothing. */
  function Next(s: State, step: Step): State {
    var i := step.thread;
    if i >= |s.threads| then s
    else
      var at := s.threads[i];
      match step.action
      case TrackInsert(id, p) => if at.Idle? then DoTrackInsert(s, i, id, p) else s
      case TrackCount => if at.Tracking? then DoTrackCount(s, i) else s
      case AckRemove(id, user) => if at.Idle? then DoAckRemove(s, i, id, user) else s
      case AckCompare(now) => if at.Holding? then DoAckCompare(s, i, now) else s
      case AckCount => if at.Acking? then DoAckCount(s, i, at.latencyMs) else s
      case AckLatency => if at.AddingLatency? then DoAckLatency(s, i, at.latencyMs) else s
      case SweepStart => if at.Idle? then DoSweepStart(s, i) else s
      case SweepOne(id, timeoutSeconds, now) =>
        if at.Sweeping? then DoSweepOne(s, i, at.removed, id, timeoutSeconds, now) else s
      case SweepCount => if at.Sweeping? then DoSweepCount(s, i, at.removed) else s
  }

  function Start(threads: nat): State {
    State(Book(map[], 0, 0, 0, 0), seq(threads, _ => Idle), multiset{}, multiset{}, multiset{}, multiset{}, {}, {})
  }

  function Run(threads: nat, steps: seq<Step>): State
    decreases |steps|
  {
    if steps == [] then Start(threads) else Next(Run(threads, steps[..|steps| - 1]), steps[|steps| - 1])
  }

  predicate Quiescent(s: State) {
    forall i :: 0 <= i < |s.threads| ==> s.threads[i] == Idle
  }

  // ---- what the threads carry ----

  /** What to count over the threads: those holding an id, or the increments still due to a counter. */
  datatype Measure = Holders(id: Id) | DueTracked | DueAcked | DueExpired

  function Weight(p: Phase, m: Measure): nat {
    match m
    case Holders(id) => if p.Holding? && p.id == id then 1 else 0
    case DueTracked => if p.Tracking? then 1 else 0
    case DueAcked => if p.Acking? then 1 else 0
    case DueExpired => if p.Sweeping? then |p.removed| else 0
  }

  function Load(threads: seq<Phase>, m: Measure): nat {
    if threads == [] then 0 else Weight(threads[0], m) + Load(threads[1..], m)
  }

  lemma {:induction false} LoadUpdate(threads: seq<Phase>, i: nat, p: Phase, m: Measure)
    requires i < |threads|
    ensures Load(threads[i := p], m) + Weight(threads[i], m) == Load(threads, m) + Weight(p, m)
  {
    if i == 0 {
      assert threads[i := p][1..] == threads[1..];
    } else {
      assert threads[i := p][1..] == threads[1..][i - 1 := p];
      LoadUpdate(threads[1..], i - 1, p, m);
    }
  }

  lemma {:induction false} LoadIncludes(threads: seq<Phase>, i: nat, m: Measure)
    requires i < |threads|
    ensures Weight(threads[i], m) <= Load(threads, m)
  {
    if i > 0 {
      LoadIncludes(threads[1..], i - 1, m);
    }
  }

  lemma {:induction false} IdleLoad(threads: seq<Phase>, m: Measure)
    requires forall i :: 0 <= i < |threads| ==> threads[i] == Idle
    ensures Load(threads, m) == 0
  {
    if threads != [] {
      assert threads[0] == Idle;
      IdleLoad(threads[1..], m);
    }
  }

  /** Every insertion of the id is pending, held by an acknowledging thread, acknowledged, swept or overwritten. */
  predicate Accounted(s: State, id: Id) {
    s.inserted[id] ==
      (if id in s.book.pending then 1 else 0) + Load(s.threads, Holders(id))
      + s.matched[id] + s.swept[id] + s.overwritten[id]
  }

  /** Each counter lags its history by what the threads have yet to add. */
  predicate Counted(s: State) {
    && s.book.tracked + Load(s.threads, DueTracked) == |s.inserted|
    && s.book.acked + Load(s.threads, DueAcked) == |s.matched|
    && s.book.expired + Load(s.threads, DueExpired) == |s.swept|
  }

  ghost predicate Conserved(s: State) {
    Counted(s) && forall id :: Accounted(s, id)
  }

  predicate OverwrittenTwice(s: State) {
    forall id :: id in s.overwritten ==> s.inserted[id] >= 2
  }

  predicate Attributed(s: State) {
    && (forall id :: id in s.book.pending ==> (id, s.book.pending[id].userId) in s.trackedFor)
    && (forall i :: 0 <= i < |s.threads| && s.threads[i].Holding? ==>
          (s.threads[i].id, s.threads[i].entry.userId) in s.trackedFor)
    && s.ackedBy <= s.trackedFor
  }

  // ---- each step keeps the balance ----

  /** What a step of thread `i` does to the balance of each id and to the counters. */
  ghost predicate StepOf(s: State, s': State, i: nat) {
    && i < |s.threads| == |s'.threads| && s'.threads == s.threads[i := s'.threads[i]]
    && (forall id :: BalancedAt(s, s', s.threads[i], s'.threads[i], id))
    && s'.book.tracked + Weight(s'.threads[i], DueTracked) - |s'.inserted|
       == s.book.tracked + Weight(s.threads[i], DueTracked) - |s.inserted|
    && s'.book.acked + Weight(s'.threads[i], DueAcked) - |s'.matched|
       == s.book.acked + Weight(s.threads[i], DueAcked) - |s.matched|
    && s'.book.expired + Weight(s'.threads[i], DueExpired) - |s'.swept|
       == s.book.expired + Weight(s.threads[i], DueExpired) - |s.swept|
  }

  function Place(s: State, p: Phase, id: Id): nat {
    (if id in s.book.pending then 1 else 0) + Weight(p, Holders(id)) + s.matched[id] + s.swept[id] + s.overwritten[id]
  }

  predicate BalancedAt(s: State, s': State, p: Phase, p': Phase, id: Id) {
    s'.inserted[id] + Place(s, p, id) == s.inserted[id] + Place(s', p', id)
  }

  lemma StepOfConserves(s: State, s': State, i: nat)
    requires Conserved(s) && StepOf(s, s', i)
    ensures Conserved(s')
  {
    var p' := s'.threads[i];
    LoadUpdate(s.threads, i, p', DueTracked);
    LoadUpdate(s.threads, i, p', DueAcked);
    LoadUpdate(s.threads, i, p', DueExpired);
    forall id
      ensures Accounted(s', id)
    {
      LoadUpdate(s.threads, i, p', Holders(id));
      assert Accounted(s, id) && BalancedAt(s, s', s.threads[i], p', id);
    }
  }

  lemma TrackInsertStep(s: State, i: nat, id: Id, p: Pending)
    requires At(s, i, true)
    ensures StepOf(s, DoTrackInsert(s, i, id, p), i)
  {
  }

  lemma AckRemoveStep(s: State, i: nat, id: Id, user: string)
    requires At(s, i, true) && id in s.book.pending
    ensures StepOf(s, DoAckRemove(s, i, id, user), i)
  {
  }

  lemma AckCompareStep(s: State, i: nat, now: int)
    requires i < |s.threads| && s.threads[i].Holding?
    ensures StepOf(s, DoAckCompare(s, i, now), i)
  {
    if s.threads[i].entry.userId != s.threads[i].user {
      assert DoAckCompare(s, i, now) == DoReinsert(s, i, s.threads[i].id, s.threads[i].entry);
    }
  }

  lemma SweepOneStep(s: State, i: nat, id: Id, timeoutSeconds: nat, now: int)
    requires i < |s.threads| && s.threads[i].Sweeping?
    requires id in s.book.pending && Expired(s.book.pending[id], timeoutSeconds, now)
    ensures StepOf(s, DoSweepOne(s, i, s.threads[i].removed, id, timeoutSeconds, now), i)
  {
  }

  lemma CounterStep(s: State, i: nat, action: Action)
    requires action.TrackCount? || action.AckCount? || action.AckLatency? || action.SweepStart? || action.SweepCount?
    ensures Next(s, Step(i, action)) == s || StepOf(s, Next(s, Step(i, action)), i)
  {
  }

  lemma StepConserves(s: State, step: Step)
    requires Conserved(s)
    ensures Conserved(Next(s, step))
  {
    var i := step.thread;
    if Next(s, step) != s {
      match step.action {
        case TrackInsert(id, p) => TrackInsertStep(s, i, id, p);
        case AckRemove(id, user) => AckRemoveStep(s, i, id, user);
        case AckCompare(now) => AckCompareStep(s, i, now);
        case SweepOne(id, timeoutSeconds, now) => SweepOneStep(s, i, id, timeoutSeconds, now);
        case _ => CounterStep(s, i, step.action);
      }
      assert StepOf(s, Next(s, step), i);
      StepOfConserves(s, Next(s, step), i);
    }
  }

  lemma {:induction false} RunsConserve(threads: nat, steps: seq<Step>)
    ensures Conserved(Run(threads, steps))
    decreases |steps|
  {
    if steps == [] {
      var s := Start(threads);
      IdleLoad(s.threads, DueTracked);
      IdleLoad(s.threads, DueAcked);
      IdleLoad(s.threads, DueExpired);
      forall id
        ensures Accounted(s, id)
      {
        IdleLoad(s.threads, Holders(id));
      }
    } else {
      RunsConserve(threads, steps[..|steps| - 1]);
      StepConserves(Run(threads, steps[..|steps| - 1]), steps[|steps| - 1]);
    }
  }

  lemma {:induction false} RunsOverwriteTwice(threads: nat, steps: seq<Step>)
    ensures OverwrittenTwice(Run(threads, steps))
    decreases |steps|
  {
    if steps != [] {
      RunsOverwriteTwice(threads, steps[..|steps| - 1]);
      RunsConserve(threads, steps[..|steps| - 1]);
      StepOverwritesTwice(Run(threads, steps[..|steps| - 1]), steps[|steps| - 1]);
    }
  }

  lemma InsertOverwritesTwice(s: State, i: nat, id: Id, p: Pending)
    requires At(s, i, true) && Accounted(s, id) && OverwrittenTwice(s)
    ensures OverwrittenTwice(DoTrackInsert(s, i, id, p))
  {
    var s' := DoTrackInsert(s, i, id, p);
    assert s'.inserted[id] == s.inserted[id] + 1;
    assert id in s.book.pending ==> s.inserted[id] >= 1;
    assert forall other :: other != id ==> s'.overwritten[other] == s.overwritten[other];
  }

  lemma ReinsertOverwritesTwice(s: State, i: nat)
    requires i < |s.threads| && s.threads[i].Holding? && Accounted(s, s.threads[i].id) && OverwrittenTwice(s)
    ensures OverwrittenTwice(DoReinsert(s, i, s.threads[i].id, s.threads[i].entry))
  {
    var id := s.threads[i].id;
    LoadIncludes(s.threads, i, Holders(id));
    assert Weight(s.threads[i], Holders(id)) == 1;
    assert id in s.book.pending ==> s.inserted[id] >= 2;
    assert forall other :: other != id ==> (s.overwritten + Lost(s.book, id))[other] == s.overwritten[other];
  }

  lemma OthersOverwriteNone(s: State, i: nat, action: Action)
    requires !action.TrackInsert? && !action.AckCompare?
    ensures Next(s, Step(i, action)).overwritten == s.overwritten
    ensures Next(s, Step(i, action)).inserted == s.inserted
  {
  }

  lemma StepOverwritesTwice(s: State, step: Step)
    requires Conserved(s) && OverwrittenTwice(s)
    ensures OverwrittenTwice(Next(s, step))
  {
    var i := step.thread;
    if Next(s, step) != s {
      match step.action {
        case TrackInsert(id, p) =>
          assert Accounted(s, id);
          InsertOverwritesTwice(s, i, id, p);
        case AckCompare(now) =>
          assert Accounted(s, s.threads[i].id);
          ReinsertOverwritesTwice(s, i);
        case _ =>
          OthersOverwriteNone(s, i, step.action);
      }
    }
  }

  lemma {:induction false} RunsAttribute(threads: nat, steps: seq<Step>)
    ensures Attributed(Run(threads, steps))
    decreases |steps|
  {
    if steps != [] {
      RunsAttribute(threads, steps[..|steps| - 1]);
      StepAttributes(Run(threads, steps[..|steps| - 1]), steps[|steps| - 1]);
    }
  }

  lemma StepAttributes(s: State, step: Step)
    requires Attributed(s)
    ensures Attributed(Next(s, step))
  {
    var i, s' := step.thread, Next(s, step);
    if i < |s.threads| {
      assert s'.threads == s.threads[i := s'.threads[i]];
      forall id | id in s'.book.pending
        ensures (id, s'.book.pending[id].userId) in s'.trackedFor
      {
        assert id in s.book.pending || step.action.TrackInsert? || step.action.AckCompare?;
      }
    }
  }

  /** In any interleaving, once no call is under way, the counters fall short of the tracked total by
      exactly the entries that were overwritten; there are none if no id was tracked twice. */
  lemma QuiescentTotals(threads: nat, steps: seq<Step>)
    requires Quiescent(Run(threads, steps))
    ensures var s := Run(threads, steps);
      && s.book.acked + s.book.expired + |s.book.pending| + |s.overwritten| == s.book.tracked
      && (s.book.acked + s.book.expired + |s.book.pending| == s.book.tracked <==> s.overwritten == multiset{})
      && ((forall id :: s.inserted[id] <= 1) ==> s.overwritten == multiset{})
  {
    var s := Run(threads, steps);
    RunsConserve(threads, steps);
    RunsOverwriteTwice(threads, steps);
    IdleLoad(s.threads, DueTracked);
    IdleLoad(s.threads, DueAcked);
    IdleLoad(s.threads, DueExpired);
    var pending := multiset(s.book.pending.Keys);
    forall id
      ensures s.inserted[id] == (pending + s.matched + s.swept + s.overwritten)[id]
    {
      assert Accounted(s, id);
      IdleLoad(s.threads, Holders(id));
    }
    assert s.inserted == pending + s.matched + s.swept + s.overwritten;
    assert |pending| == |s.book.pending|;
    if forall id :: s.inserted[id] <= 1 {
      assert forall id :: id !in s.overwritten;
    }
  }

  // ---- calls that are not interrupted ----

  datatype Call =
    | TrackCall(id: Id, entry: Pending)
    | AckCall(id: Id, user: string, at: int)
    | SweepCall(timeoutSeconds: nat, at: int)

  function AfterCall(b: Book, call: Call): Book {
    match call
    case TrackCall(id, p) => Tracked(b, id, p)
    case AckCall(id, user, now) => Acknowledged(b, id, user, now)
    case SweepCall(timeoutSeconds, now) => Swept(b, timeoutSeconds, now)
  }

  function AfterCalls(calls: seq<Call>): Book
    decreases |calls|
  {
    if calls == [] then Book(map[], 0, 0, 0, 0)
    else AfterCall(AfterCalls(calls[..|calls| - 1]), calls[|calls| - 1])
  }

  /** A call that tracks an id still pending. */
  predicate Retracks(b: Book, call: Call) {
    call.TrackCall? && call.id in b.pending
  }

  function Retracked(calls: seq<Call>): nat
    decreases |calls|
  {
    if calls == [] then 0
    else
      var init, last := calls[..|calls| - 1], calls[|calls| - 1];
      Retracked(init) + if Retracks(AfterCalls(init), last) then 1 else 0
  }

  /** Every `track` found its id not pending. */
  predicate TrackedFree(calls: seq<Call>) {
    forall i :: 0 <= i < |calls| ==> !Retracks(AfterCalls(calls[..i]), calls[i])
  }

  lemma SizeWith(pending: map<Id, Pending>, id: Id, p: Pending)
    ensures |pending[id := p]| == |pending| + if id in pending then 0 else 1
  {
    assert pending[id := p].Keys == pending.Keys + {id};
  }

  lemma SizeWithout(pending: map<Id, Pending>, ids: set<Id>)
    requires ids <= pending.Keys
    ensures |pending - ids| == |pending| - |ids|
  {
    assert (pending - ids).Keys == pending.Keys - ids;
  }

  /** How far the totals are from the number tracked. */
  function Shortfall(b: Book): int {
    b.tracked - b.acked - b.expired - |b.pending|
  }

  lemma CallSettles(b: Book, call: Call)
    ensures Shortfall(AfterCall(b, call)) == Shortfall(b) + if Retracks(b, call) then 1 else 0
  {
    match call {
      case TrackCall(id, p) => SizeWith(b.pending, id, p);
      case AckCall(id, user, now) => AckSettles(b, id, user, now);
      case SweepCall(timeoutSeconds, now) => SizeWithout(b.pending, ExpiredIds(b.pending, timeoutSeconds, now));
    }
  }

  lemma AckSettles(b: Book, id: Id, user: string, now: int)
    ensures Shortfall(Acknowledged(b, id, user, now)) == Shortfall(b)
  {
    if Acknowledges(b, id, user) {
      SizeWithout(b.pending, {id});
    }
  }

  lemma {:induction false} CallsSettle(calls: seq<Call>)
    ensures Shortfall(AfterCalls(calls)) == Retracked(calls)
    decreases |calls|
  {
    if calls != [] {
      CallsSettle(calls[..|calls| - 1]);
      CallSettles(AfterCalls(calls[..|calls| - 1]), calls[|calls| - 1]);
    }
  }

  lemma TrackedFreeNext(calls: seq<Call>)
    requires calls != []
    ensures var init, last := calls[..|calls| - 1], calls[|calls| - 1];
      TrackedFree(calls) <==> TrackedFree(init) && !Retracks(AfterCalls(init), last)
  {
    var n := |calls| - 1;
    var init := calls[..n];
    assert forall i :: 0 <= i < n ==> init[..i] == calls[..i] && init[i] == calls[i];
    if TrackedFree(init) && !Retracks(AfterCalls(init), calls[n]) {
      forall i | 0 <= i < |calls|
        ensures !Retracks(AfterCalls(calls[..i]), calls[i])
      {
        assert i < n ==> !Retracks(AfterCalls(init[..i]), init[i]);
      }
    }
    if TrackedFree(calls) {
      assert !Retracks(AfterCalls(calls[..n]), calls[n]);
    }
  }

  lemma {:induction false} NoneRetracked(calls: seq<Call>)
    ensures Retracked(calls) == 0 <==> TrackedFree(calls)
    decreases |calls|
  {
    if calls != [] {
      NoneRetracked(calls[..|calls| - 1]);
      TrackedFreeNext(calls);
    }
  }

  /** An entry is swept exactly if it is as old as the timeout; a timeout that the cast makes negative sweeps
      all that were sent before. */
  lemma SweptExactly(b: Book, timeoutSeconds: nat, now: int, id: Id)
    requires id in b.pending
    ensures 1 <= timeoutSeconds < 0x8000_0000_0000_0000 ==>
      (id in Swept(b, timeoutSeconds, now).pending <==> now - b.pending[id].sentAt < 1000 * timeoutSeconds)
    ensures timeoutSeconds == 0 || 0x8000_0000_0000_0000 <= timeoutSeconds < 0x1_0000_0000_0000_0000 ==>
      (b.pending[id].sentAt <= now ==> id !in Swept(b, timeoutSeconds, now).pending)
  {
    var age := now - b.pending[id].sentAt;
    if age >= 0 || timeoutSeconds >= 1 {
      SecondsPassed(age, timeoutSeconds);
    }
  }

  predicate TimedCalls(calls: seq<Call>) {
    forall i, j :: 0 <= i <= j < |calls| ==> CallTime(calls[i]) <= CallTime(calls[j])
  }

  function CallTime(call: Call): int {
    if call.TrackCall? then call.entry.sentAt else call.at
  }

  /** The entry that the last `track` of the id made; only meant for an id that was tracked. */
  function LastTracked(calls: seq<Call>, id: Id): Pending
    decreases |calls|
  {
    if calls == [] then Pending("", 0, 0)
    else
      var last := calls[|calls| - 1];
      if last.TrackCall? && last.id == id then last.entry else LastTracked(calls[..|calls| - 1], id)
  }

  lemma {:induction false} PendingIsLastTracked(calls: seq<Call>, id: Id)
    ensures id in AfterCalls(calls).pending ==> AfterCalls(calls).pending[id] == LastTracked(calls, id)
    decreases |calls|
  {
    if calls != [] {
      PendingIsLastTracked(calls[..|calls| - 1], id);
    }
  }

  lemma {:induction false} PendingSentBefore(calls: seq<Call>, id: Id, now: int)
    requires forall i :: 0 <= i < |calls| ==> CallTime(calls[i]) <= now
    ensures id in AfterCalls(calls).pending ==> AfterCalls(calls).pending[id].sentAt <= now
    decreases |calls|
  {
    if calls != [] {
      PendingSentBefore(calls[..|calls| - 1], id, now);
    }
  }

  /** The time between the last `track` of an id and its acknowledgement, summed over the acknowledgements. */
  function Waited(calls: seq<Call>): int
    decreases |calls|
  {
    if calls == [] then 0
    else
      var init, last := calls[..|calls| - 1], calls[|calls| - 1];
      Waited(init) +
        if last.AckCall? && Acknowledges(AfterCalls(init), last.id, last.user)
        then last.at - LastTracked(init, last.id).sentAt else 0
  }

  /** The latency total is the time waited, under a clock that does not go back. */
  lemma {:induction false} LatencyIsWaited(calls: seq<Call>)
    requires TimedCalls(calls)
    ensures AfterCalls(calls).latencyMs == Waited(calls)
    decreases |calls|
  {
    if calls != [] {
      var init, last := calls[..|calls| - 1], calls[|calls| - 1];
      LatencyIsWaited(init);
      if last.AckCall? {
        PendingIsLastTracked(init, last.id);
        PendingSentBefore(init, last.id, last.at);
      }
    }
  }

  /** With one call at a time the totals agree if and only if each `track` found its id not pending. */
  lemma UndividedTotals(calls: seq<Call>)
    ensures var b := AfterCalls(calls); b.acked + b.expired + |b.pending| == b.tracked <==> TrackedFree(calls)
  {
    CallsSettle(calls);
    NoneRetracked(calls);
  }

  /** An id tracked once is, at any moment of any interleaving, in exactly one place: pending, in the hands
      of an acknowledging thread, acknowledged, or swept. */
  lemma TrackedOnceSettledOnce(threads: nat, steps: seq<Step>, id: Id)
    requires Run(threads, steps).inserted[id] == 1
    ensures var s := Run(threads, steps);
      (if id in s.book.pending then 1 else 0) + Load(s.threads, Holders(id)) + s.matched[id] + s.swept[id] == 1
  {
    RunsConserve(threads, steps);
    RunsOverwriteTwice(threads, steps);
    assert Accounted(Run(threads, steps), id);
    assert id !in Run(threads, steps).overwritten;
  }

  /** Only a user a notification was tracked for has ever acknowledged it. */
  lemma OnlyTrackedUserAcknowledges(threads: nat, steps: seq<Step>, id: Id, user: string)
    requires (id, user) in Run(threads, steps).ackedBy
    ensures (id, user) in Run(threads, steps).trackedFor
  {
    RunsAttribute(threads, steps);
  }

  // ---- a call that is not interrupted ----

  function RunFrom(s: State, i: nat, actions: seq<Action>): State
    decreases |actions|
  {
    if actions == [] then s else RunFrom(Next(s, Step(i, actions[0])), i, actions[1..])
  }

  lemma RunFromFour(s: State, i: nat, a: Action, b: Action, c: Action, d: Action)
    ensures RunFrom(s, i, [a, b, c, d])
         == Next(Next(Next(Next(s, Step(i, a)), Step(i, b)), Step(i, c)), Step(i, d))
  {
    assert [a, b, c, d][1..] == [b, c, d] && [b, c, d][1..] == [c, d] && [c, d][1..] == [d] && [d][1..] == [];
    var s1 := Next(s, Step(i, a));
    var s2 := Next(s1, Step(i, b));
    var s3 := Next(s2, Step(i, c));
    assert RunFrom(s, i, [a, b, c, d]) == RunFrom(s1, i, [b, c, d]) == RunFrom(s2, i, [c, d]) == RunFrom(s3, i, [d]);
    assert RunFrom(s3, i, [d]) == RunFrom(Next(s3, Step(i, d)), i, []);
  }

  /** One notification sent to two connections of a user is tracked twice: the totals then fall short. */
  lemma TwoConnectionsOverwrite(id: Id, p: Pending, q: Pending)
    ensures var s := RunFrom(Start(1), 0, [TrackInsert(id, p), TrackCount, TrackInsert(id, q), TrackCount]);
      Quiescent(s) && s.book.tracked == 2 && s.book.acked + s.book.expired + |s.book.pending| == 1
  {
    RunFromFour(Start(1), 0, TrackInsert(id, p), TrackCount, TrackInsert(id, q), TrackCount);
    var s1 := DoTrackInsert(Start(1), 0, id, p);
    var s2 := DoTrackCount(s1, 0);
    var s3 := DoTrackInsert(s2, 0, id, q);
    assert s3.book.pending == map[id := q];
  }

  /** The steps of an uninterrupted `acknowledge` do what the call does as a whole. */
  lemma AcknowledgeSteps(s: State, i: nat, id: Id, user: string, now: int)
    requires i < |s.threads| && s.threads[i] == Idle
    ensures var s' := RunFrom(s, i, [AckRemove(id, user), AckCompare(now), AckCount, AckLatency]);
      s'.book == Acknowledged(s.book, id, user, now) && s'.threads == s.threads && s'.overwritten == s.overwritten
  {
    RunFromFour(s, i, AckRemove(id, user), AckCompare(now), AckCount, AckLatency);
    if id in s.book.pending {
      if s.book.pending[id].userId == user {
        MatchedSteps(s, i, id, user, now);
      } else {
        MismatchedSteps(s, i, id, user, now);
      }
    }
  }

  lemma MismatchedSteps(s: State, i: nat, id: Id, user: string, now: int)
    requires i < |s.threads| && s.threads[i] == Idle && id in s.book.pending && s.book.pending[id].userId != user
    ensures var s' := Next(Next(s, Step(i, AckRemove(id, user))), Step(i, AckCompare(now)));
      s'.book == s.book && s'.threads == s.threads && s'.overwritten == s.overwritten
  {
    var p := s.book.pending[id];
    var s1 := DoAckRemove(s, i, id, user);
    assert s1.threads[i] == Holding(id, p, user);
    assert DoAckCompare(s1, i, now) == DoReinsert(s1, i, id, p);
    assert (s.book.pending - {id})[id := p] == s.book.pending;
  }

  lemma MatchedSteps(s: State, i: nat, id: Id, user: string, now: int)
    requires i < |s.threads| && s.threads[i] == Idle && Acknowledges(s.book, id, user)
    ensures var s' :=
        Next(Next(Next(Next(s, Step(i, AckRemove(id, user))), Step(i, AckCompare(now))),
                  Step(i, AckCount)), Step(i, AckLatency));
      s'.book == Acknowledged(s.book, id, user, now) && s'.threads == s.threads && s'.overwritten == s.overwritten
  {
    var p := s.book.pending[id];
    var s1 := DoAckRemove(s, i, id, user);
    assert s1.threads[i] == Holding(id, p, user);
    var s2 := DoMatch(s1, i, id, user, Latency(p, now));
    assert DoAckCompare(s1, i, now) == s2;
    var s3 := DoAckCount(s2, i, Latency(p, now));
    assert DoAckLatency(s3, i, Latency(p, now)).threads == s.threads;
  }

  function Sweeps(ids: seq<Id>, timeoutSeconds: nat, now: int): seq<Action> {
    seq(|ids|, j requires 0 <= j < |ids| => SweepOne(ids[j], timeoutSeconds, now))
  }

  lemma OneLess(pending: map<Id, Pending>, id: Id, ids: set<Id>)
    ensures pending - {id} - ids == pending - ({id} + ids)
  {
  }

  lemma SweepRemoves(s: State, i: nat, id: Id, timeoutSeconds: nat, now: int)
    requires i < |s.threads| && s.threads[i].Sweeping?
    requires id in s.book.pending && Expired(s.book.pending[id], timeoutSeconds, now)
    ensures var s' := Next(s, Step(i, SweepOne(id, timeoutSeconds, now)));
      && s'.book == s.book.(pending := s.book.pending - {id})
      && |s'.threads| == |s.threads| && s'.threads[i] == Sweeping(s.threads[i].removed + multiset{id})
  {
  }

  lemma {:induction false} SweepManySteps(s: State, i: nat, ids: seq<Id>, timeoutSeconds: nat, now: int)
    requires i < |s.threads| && s.threads[i].Sweeping?
    requires forall j, k :: 0 <= j < k < |ids| ==> ids[j] != ids[k]
    requires forall id :: id in ids ==> id in s.book.pending && Expired(s.book.pending[id], timeoutSeconds, now)
    ensures RunFrom(s, i, Sweeps(ids, timeoutSeconds, now) + [SweepCount]).book
         == s.book.(pending := s.book.pending - (set id | id in ids),
                    expired := s.book.expired + |s.threads[i].removed| + |ids|)
    decreases |ids|
  {
    var actions := Sweeps(ids, timeoutSeconds, now) + [SweepCount];
    if ids == [] {
      assert actions == [SweepCount] && actions[1..] == [];
      assert RunFrom(s, i, actions) == Next(s, Step(i, SweepCount));
      assert s.book.pending - {} == s.book.pending;
    } else {
      var s' := Next(s, Step(i, SweepOne(ids[0], timeoutSeconds, now)));
      SweepRemoves(s, i, ids[0], timeoutSeconds, now);
      assert actions[1..] == Sweeps(ids[1..], timeoutSeconds, now) + [SweepCount];
      SweepManySteps(s', i, ids[1..], timeoutSeconds, now);
      assert (set id | id in ids) == {ids[0]} + (set id | id in ids[1..]);
      OneLess(s.book.pending, ids[0], set id | id in ids[1..]);
    }
  }
}
