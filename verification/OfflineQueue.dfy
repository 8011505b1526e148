/** The in-memory queue of messages for offline users. */
module OfflineQueues {
  import opened MachineInts

  datatype Config = Config(enabled: bool, maxQueueSizePerUser: nat, messageTtlSeconds: nat)

  /** A stored message; `queuedAt` is in milliseconds. */
  datatype Message = Message(id: nat, event: string, queuedAt: int)

  /** The age in whole seconds, truncated, has reached the time to live. */
  predicate Expired(m: Message, ttlSeconds: nat, now: int) {
    TruncDiv(now - m.queuedAt, 1000) >= AsI64(ttlSeconds)
  }

  function Live(q: seq<Message>, ttlSeconds: nat, now: int): seq<Message> {
    if q == [] then []
    else (if Expired(q[0], ttlSeconds, now) then [] else [q[0]]) + Live(q[1..], ttlSeconds, now)
  }

  type Queues = map<string, seq<Message>>

  function Waiting(queues: Queues, user: string): seq<Message> {
    if user in queues then queues[user] else []
  }

  function Enqueued(q: seq<Message>, max: nat, m: Message): seq<Message> {
    (if |q| >= max && q != [] then q[1..] else q) + [m]
  }

  function Cleaned(queues: Queues, ttlSeconds: nat, now: int): Queues {
    map user | user in queues && Live(queues[user], ttlSeconds, now) != [] :: Live(queues[user], ttlSeconds, now)
  }

  datatype EnqueueResult = Ok | Disabled
  datatype Stats = Stats(totalMessages: nat, usersWithQueue: nat, maxQueueSize: nat)

  ghost function TotalSize(queues: Queues, users: set<string>): nat
    requires users <= queues.Keys
  {
    if users == {} then 0
    else var user :| user in users; |queues[user]| + TotalSize(queues, users - {user})
  }

  lemma {:induction false} TotalSizeWith(queues: Queues, users: set<string>, user: string)
    requires users <= queues.Keys && user in users
    ensures TotalSize(queues, users) == |queues[user]| + TotalSize(queues, users - {user})
    decreases users
  {
    var first :| first in users && TotalSize(queues, users) == |queues[first]| + TotalSize(queues, users - {first});
    if first != user {
      TotalSizeWith(queues, users - {first}, user);
      TotalSizeWith(queues, users - {user}, first);
      assert users - {first} - {user} == users - {user} - {first};
    }
  }

  class MemoryQueueBackend {
    var queues: Queues
    const config: Config

    constructor (config: Config)
      ensures queues == map[] && this.config == config
    {
      queues, this.config := map[], config;
    }

    method Enqueue(user: string, event: string, id: nat, now: int) returns (r: EnqueueResult)
      modifies this
      ensures !config.enabled ==> r == Disabled && queues == old(queues)
      ensures config.enabled ==>
        r == Ok &&
        queues == old(queues)[user :=
          Enqueued(Waiting(old(queues), user), config.maxQueueSizePerUser, Message(id, event, now))]
    {
      if !config.enabled {
        return Disabled;
      }
      var message := Message(id, event, now);
      var queue := if user in queues then queues[user] else [];
      if |queue| >= config.maxQueueSizePerUser {
        if queue != [] {
          queue := queue[1..];
        }
      }
      queue := queue + [message];
      queues := queues[user := queue];
      r := Ok;
    }

    method Drain(user: string, now: int) returns (messages: seq<Message>, expired: nat)
      modifies this
      ensures !config.enabled ==> messages == [] && expired == 0 && queues == old(queues)
      ensures config.enabled ==>
        messages == Live(Waiting(old(queues), user), config.messageTtlSeconds, now) &&
        |messages| + expired == |Waiting(old(queues), user)| &&
        queues == old(queues) - {user}
    {
      messages, expired := [], 0;
      if !config.enabled {
        return;
      }
      if user !in queues {
        assert queues == queues - {user};
        return;
      }
      var queue := queues[user];
      queues := queues - {user};
      for i := 0 to |queue|
        invariant messages + Live(queue[i..], config.messageTtlSeconds, now)
          == Live(queue, config.messageTtlSeconds, now)
        invariant |messages| + expired == i
        invariant queues == old(queues) - {user}
      {
        LiveNext(messages, queue, i, config.messageTtlSeconds, now);
        if Expired(queue[i], config.messageTtlSeconds, now) {
          expired := expired + 1;
        } else {
          messages := messages + [queue[i]];
        }
      }
      assert queue[|queue|..] == [];
    }

    method CleanupExpired(now: int) returns (removed: nat)
      modifies this
      ensures queues == Cleaned(old(queues), config.messageTtlSeconds, now)
      ensures removed == TotalSize(old(queues), old(queues).Keys) - TotalSize(queues, queues.Keys)
    {
      var ttl := config.messageTtlSeconds;
      var before := queues;
      removed := 0;
      var users := queues.Keys;
      while users != {}
        invariant users <= before.Keys && CleanedBut(before, queues, users, ttl, now)
        invariant removed == TotalSize(before, before.Keys) - TotalSize(queues, queues.Keys)
        decreases users
      {
        var user :| user in users;
        users := users - {user};
        var queue := Live(queues[user], ttl, now);
        LiveShorter(queues[user], ttl, now);
        removed := removed + (|queues[user]| - |queue|);
        ghost var was := queues;
        if queue == [] {
          queues := queues - {user};
        } else {
          queues := queues[user := queue];
        }
        OneQueueChanged(was, queues, user, queue);
      }
      assert queues == Cleaned(before, ttl, now);
    }

    method ClearUserQueue(user: string) returns (count: nat)
      modifies this
      ensures count == |Waiting(old(queues), user)|
      ensures queues == old(queues) - {user}
    {
      count := if user in queues then |queues[user]| else 0;
      queues := queues - {user};
    }

    method GetStats() returns (stats: Stats)
      ensures stats.totalMessages == TotalSize(queues, queues.Keys)
      ensures stats.usersWithQueue == |queues|
      ensures forall user :: user in queues ==> |queues[user]| <= stats.maxQueueSize
      ensures stats.maxQueueSize == 0 || exists user :: user in queues && |queues[user]| == stats.maxQueueSize
    {
      var total, withQueue, max := 0, 0, 0;
      var users := queues.Keys;
      while users != {}
        invariant users <= queues.Keys
        invariant total + TotalSize(queues, users) == TotalSize(queues, queues.Keys)
        invariant withQueue + |users| == |queues|
        invariant forall user :: user in queues && user !in users ==> |queues[user]| <= max
        invariant max == 0 || exists user :: user in queues && |queues[user]| == max
        decreases users
      {
        var user :| user in users;
        TotalSizeWith(queues, users, user);
        users := users - {user};
        var size := |queues[user]|;
        total := total + size;
        withQueue := withQueue + 1;
        max := if size > max then size else max;
      }
      stats := Stats(total, withQueue, max);
    }
  }

  /** The queues are cleaned except those of `users`. */
  ghost predicate CleanedBut(before: Queues, queues: Queues, users: set<string>, ttlSeconds: nat, now: int) {
    && users <= queues.Keys <= before.Keys
    && (forall user :: user in users ==> queues[user] == before[user])
    && (forall user :: user in before && user !in users ==>
          var live := Live(before[user], ttlSeconds, now);
          (user in queues <==> live != []) && (user in queues ==> queues[user] == live))
  }

  lemma {:induction false} TotalSizeSame(a: Queues, b: Queues, users: set<string>)
    requires users <= a.Keys && users <= b.Keys && forall user :: user in users ==> a[user] == b[user]
    ensures TotalSize(a, users) == TotalSize(b, users)
    decreases users
  {
    if users != {} {
      var user :| user in users;
      TotalSizeWith(a, users, user);
      TotalSizeWith(b, users, user);
      TotalSizeSame(a, b, users - {user});
    }
  }

  lemma OneQueueChanged(a: Queues, b: Queues, user: string, q: seq<Message>)
    requires user in a && b == if q == [] then a - {user} else a[user := q]
    ensures TotalSize(a, a.Keys) - TotalSize(b, b.Keys) == |a[user]| - |q|
  {
    TotalSizeWith(a, a.Keys, user);
    TotalSizeSame(a, b, a.Keys - {user});
    assert b.Keys - {user} == a.Keys - {user};
    if q != [] {
      TotalSizeWith(b, b.Keys, user);
    } else {
      assert b.Keys == a.Keys - {user};
    }
  }

  // ---- runs ----

  datatype Op =
    | Enqueue(user: string, message: Message)
    | Drain(user: string, at: int)
    | Clear(user: string, at: int)
    | Cleanup(at: int)

  function Time(op: Op): int {
    if op.Enqueue? then op.message.queuedAt else op.at
  }

  predicate Timed(ops: seq<Op>) {
    forall i, j :: 0 <= i < j < |ops| ==> Time(ops[i]) <= Time(ops[j])
  }

  function Next(cfg: Config, queues: Queues, op: Op): Queues {
    match op
    case Enqueue(user, m) =>
      if cfg.enabled then queues[user := Enqueued(Waiting(queues, user), cfg.maxQueueSizePerUser, m)] else queues
    case Drain(user, _) => if cfg.enabled then queues - {user} else queues
    case Clear(user, _) => queues - {user}
    case Cleanup(now) => Cleaned(queues, cfg.messageTtlSeconds, now)
  }

  /** The queues after a run that starts with none. */
  function Run(cfg: Config, ops: seq<Op>): Queues
    decreases |ops|
  {
    if ops == [] then map[] else Next(cfg, Run(cfg, ops[..|ops| - 1]), ops[|ops| - 1])
  }

  /** The messages a drain returns after the run. */
  function Drained(cfg: Config, ops: seq<Op>, user: string, now: int): seq<Message> {
    if cfg.enabled then Live(Waiting(Run(cfg, ops), user), cfg.messageTtlSeconds, now) else []
  }

  /** The messages enqueued for the user since the queue was last drained or cleared. */
  function Since(ops: seq<Op>, user: string): seq<Message>
    decreases |ops|
  {
    if ops == [] then []
    else
      var before := Since(ops[..|ops| - 1], user);
      match ops[|ops| - 1]
      case Enqueue(u, m) => if u == user then before + [m] else before
      case Drain(u, _) => if u == user then [] else before
      case Clear(u, _) => if u == user then [] else before
      case Cleanup(_) => before
  }

  function LastN<T>(s: seq<T>, n: nat): seq<T> {
    if |s| <= n then s else s[|s| - n..]
  }

  /** `q` is `full` without some expired messages at its front. */
  predicate Trimmed(cfg: Config, full: seq<Message>, q: seq<Message>, now: int) {
    |q| <= |full| && q == full[|full| - |q|..] &&
    forall i :: 0 <= i < |full| - |q| ==> Expired(full[i], cfg.messageTtlSeconds, now)
  }

  lemma LiveNext(messages: seq<Message>, queue: seq<Message>, i: nat, ttlSeconds: nat, now: int)
    requires i < |queue|
    ensures messages + Live(queue[i..], ttlSeconds, now)
         == messages + (if Expired(queue[i], ttlSeconds, now) then [] else [queue[i]])
           + Live(queue[i + 1..], ttlSeconds, now)
  {
    assert queue[i..][1..] == queue[i + 1..];
  }

  lemma {:induction false} LiveShorter(q: seq<Message>, ttlSeconds: nat, now: int)
    ensures |Live(q, ttlSeconds, now)| <= |q|
  {
    if q != [] {
      LiveShorter(q[1..], ttlSeconds, now);
    }
  }

  lemma ExpiredStays(m: Message, ttlSeconds: nat, now: int, later: int)
    requires Expired(m, ttlSeconds, now) && now <= later
    ensures Expired(m, ttlSeconds, later)
  {
  }

  /** In a queue in order of arrival the expired messages are at the front. */
  lemma {:induction false} LiveIsSuffix(cfg: Config, q: seq<Message>, now: int)
    requires forall i, j :: 0 <= i < j < |q| ==> q[i].queuedAt <= q[j].queuedAt
    ensures Trimmed(cfg, q, Live(q, cfg.messageTtlSeconds, now), now)
  {
    if q != [] {
      if Expired(q[0], cfg.messageTtlSeconds, now) {
        LiveIsSuffix(cfg, q[1..], now);
      } else {
        forall i | 0 <= i < |q|
          ensures !Expired(q[i], cfg.messageTtlSeconds, now)
        {
          if i > 0 {
            YoungerAlsoLive(q[0], q[i], cfg.messageTtlSeconds, now);
          }
        }
        AllLive(q, cfg.messageTtlSeconds, now);
      }
    }
  }

  lemma YoungerAlsoLive(m: Message, younger: Message, ttlSeconds: nat, now: int)
    requires m.queuedAt <= younger.queuedAt && !Expired(m, ttlSeconds, now)
    ensures !Expired(younger, ttlSeconds, now)
  {
  }

  lemma {:induction false} AllLive(q: seq<Message>, ttlSeconds: nat, now: int)
    requires forall i :: 0 <= i < |q| ==> !Expired(q[i], ttlSeconds, now)
    ensures Live(q, ttlSeconds, now) == q
  {
    if q != [] {
      AllLive(q[1..], ttlSeconds, now);
      assert q == [q[0]] + q[1..];
    }
  }

  lemma {:induction false} LiveOfTrimmed(cfg: Config, full: seq<Message>, q: seq<Message>, now: int)
    requires Trimmed(cfg, full, q, now)
    ensures Live(full, cfg.messageTtlSeconds, now) == Live(q, cfg.messageTtlSeconds, now)
    decreases |full|
  {
    if |q| < |full| {
      assert full[1..][|full| - 1 - |q|..] == full[|full| - |q|..];
      LiveOfTrimmed(cfg, full[1..], q, now);
    } else {
      assert q == full;
    }
  }

  function Bound(cfg: Config): nat {
    Max(cfg.maxQueueSizePerUser, 1)
  }

  lemma {:induction false} SinceInOrder(ops: seq<Op>, user: string)
    requires Timed(ops)
    ensures forall i, j :: 0 <= i < j < |Since(ops, user)| ==>
      Since(ops, user)[i].queuedAt <= Since(ops, user)[j].queuedAt
    ensures forall m :: m in Since(ops, user) ==> ops != [] && m.queuedAt <= Time(ops[|ops| - 1])
    decreases |ops|
  {
    if ops != [] {
      SinceInOrder(ops[..|ops| - 1], user);
    }
  }

  lemma LastNAppend<T>(s: seq<T>, n: nat, x: T)
    requires n >= 1
    ensures LastN(s + [x], n) == (if |s| < n then s else LastN(s, n)[1..]) + [x]
  {
  }

  lemma TrimmedAppend(cfg: Config, full: seq<Message>, q: seq<Message>, m: Message, now: int)
    requires Trimmed(cfg, full, q, now)
    ensures Trimmed(cfg, full + [m], q + [m], now)
  {
    var k := |full| - |q|;
    assert (full + [m])[k..] == full[k..] + [m];
  }

  lemma TrimmedTail(cfg: Config, full: seq<Message>, q: seq<Message>, now: int)
    requires Trimmed(cfg, full, q, now) && |q| < |full|
    ensures Trimmed(cfg, full[1..], q, now)
  {
    var k := |full| - |q|;
    assert full[1..][k - 1..] == full[k..];
  }

  lemma EnqueuedForm(q: seq<Message>, max: nat, m: Message)
    ensures |q| < Max(max, 1) ==> Enqueued(q, max, m) == q + [m]
    ensures |q| == Max(max, 1) ==> Enqueued(q, max, m) == q[1..] + [m]
  {
  }

  lemma RoomTrimmed(cfg: Config, sent: seq<Message>, q: seq<Message>, m: Message, now: int)
    requires Trimmed(cfg, LastN(sent, Bound(cfg)), q, now) && |sent| < Bound(cfg)
    ensures Trimmed(cfg, LastN(sent, Bound(cfg)) + [m], Enqueued(q, cfg.maxQueueSizePerUser, m), now)
  {
    EnqueuedForm(q, cfg.maxQueueSizePerUser, m);
    TrimmedAppend(cfg, sent, q, m, now);
  }

  lemma ShiftTrimmed(cfg: Config, full: seq<Message>, q: seq<Message>, m: Message, now: int)
    requires Trimmed(cfg, full, q, now) && |full| == Bound(cfg)
    ensures Trimmed(cfg, full[1..] + [m], Enqueued(q, cfg.maxQueueSizePerUser, m), now)
  {
    EnqueuedForm(q, cfg.maxQueueSizePerUser, m);
    if |q| < |full| {
      TrimmedTail(cfg, full, q, now);
      TrimmedAppend(cfg, full[1..], q, m, now);
    } else {
      assert q == full;
    }
  }

  lemma EnqueuedTrimmed(cfg: Config, sent: seq<Message>, q: seq<Message>, m: Message, now: int)
    requires Trimmed(cfg, LastN(sent, Bound(cfg)), q, now)
    ensures Trimmed(cfg, LastN(sent + [m], Bound(cfg)), Enqueued(q, cfg.maxQueueSizePerUser, m), now)
  {
    LastNAppend(sent, Bound(cfg), m);
    if |sent| < Bound(cfg) {
      RoomTrimmed(cfg, sent, q, m, now);
    } else {
      ShiftTrimmed(cfg, LastN(sent, Bound(cfg)), q, m, now);
    }
  }

  /** What a queue holds at any time: the newest messages it was sent, up to its bound, less some that
      have expired, from the front. */
  lemma {:induction false} QueueHoldsNewest(cfg: Config, ops: seq<Op>, user: string, now: int)
    requires cfg.enabled && Timed(ops) && (ops == [] || Time(ops[|ops| - 1]) <= now)
    ensures Trimmed(cfg, LastN(Since(ops, user), Bound(cfg)), Waiting(Run(cfg, ops), user), now)
    decreases |ops|
  {
    if ops != [] {
      var init, op := ops[..|ops| - 1], ops[|ops| - 1];
      QueueHoldsNewest(cfg, init, user, now);
      match op {
        case Enqueue(u, m) =>
          if u == user {
            EnqueuedTrimmed(cfg, Since(init, user), Waiting(Run(cfg, init), user), m, now);
          }
        case Cleanup(t) =>
          QueueHoldsNewest(cfg, init, user, t);
          SinceInOrder(init, user);
          LastNInOrder(Since(init, user), Bound(cfg));
          CleanedTrimmed(cfg, LastN(Since(init, user), Bound(cfg)), Waiting(Run(cfg, init), user), t, now);
          CleanedWaiting(Run(cfg, init), cfg.messageTtlSeconds, t, user);
        case _ =>
      }
    }
  }

  lemma CleanedWaiting(queues: Queues, ttlSeconds: nat, now: int, user: string)
    ensures Waiting(Cleaned(queues, ttlSeconds, now), user) == Live(Waiting(queues, user), ttlSeconds, now)
  {
  }

  lemma LastNInOrder(q: seq<Message>, n: nat)
    requires forall i, j :: 0 <= i < j < |q| ==> q[i].queuedAt <= q[j].queuedAt
    ensures forall i, j :: 0 <= i < j < |LastN(q, n)| ==> LastN(q, n)[i].queuedAt <= LastN(q, n)[j].queuedAt
  {
  }

  lemma CleanedTrimmed(cfg: Config, full: seq<Message>, q: seq<Message>, t: int, now: int)
    requires Trimmed(cfg, full, q, t) && t <= now
    requires forall i, j :: 0 <= i < j < |full| ==> full[i].queuedAt <= full[j].queuedAt
    ensures Trimmed(cfg, full, Live(q, cfg.messageTtlSeconds, t), now)
  {
    LiveOfTrimmed(cfg, full, q, t);
    LiveIsSuffix(cfg, full, t);
    forall i | 0 <= i < |full| - |Live(q, cfg.messageTtlSeconds, t)|
      ensures Expired(full[i], cfg.messageTtlSeconds, now)
    {
      ExpiredStays(full[i], cfg.messageTtlSeconds, t, now);
    }
  }

  /** A drain returns, of the messages sent since the last drain or clear, the newest up to the bound that
      have not expired; a bound of zero works as a bound of one. Cleanups do not enter into it. */
  lemma DrainReturnsNewestLive(cfg: Config, ops: seq<Op>, user: string, now: int)
    requires cfg.enabled && Timed(ops) && (ops == [] || Time(ops[|ops| - 1]) <= now)
    ensures Drained(cfg, ops, user, now) == Live(LastN(Since(ops, user), Bound(cfg)), cfg.messageTtlSeconds, now)
  {
    QueueHoldsNewest(cfg, ops, user, now);
    LiveOfTrimmed(cfg, LastN(Since(ops, user), Bound(cfg)), Waiting(Run(cfg, ops), user), now);
  }

  // ---- expiry by age ----

  /** Below the limit of the cast a message lives as long as its age in milliseconds is less than the time to
      live; the cast makes a larger time to live negative, and then a message that has an age is dead. */
  lemma ExpiredByAge(m: Message, ttlSeconds: nat, now: int)
    ensures 1 <= ttlSeconds < 0x8000_0000_0000_0000 ==>
      (Expired(m, ttlSeconds, now) <==> now - m.queuedAt >= 1000 * ttlSeconds)
    ensures ttlSeconds == 0 || 0x8000_0000_0000_0000 <= ttlSeconds < 0x1_0000_0000_0000_0000 ==>
      (m.queuedAt <= now ==> Expired(m, ttlSeconds, now))
  {
    if m.queuedAt <= now || ttlSeconds >= 1 {
      SecondsPassed(now - m.queuedAt, ttlSeconds);
    }
  }

  /** The message is younger than the time to live. */
  predicate Young(m: Message, ttlSeconds: nat, now: int) {
    now - m.queuedAt < 1000 * ttlSeconds
  }

  lemma {:induction false} LiveAreYoung(q: seq<Message>, ttlSeconds: nat, now: int)
    requires 1 <= ttlSeconds < I64_LIMIT
    ensures forall m :: m in Live(q, ttlSeconds, now) <==> m in q && Young(m, ttlSeconds, now)
  {
    if q != [] {
      ExpiredByAge(q[0], ttlSeconds, now);
      LiveAreYoung(q[1..], ttlSeconds, now);
    }
  }

  /** What was enqueued since the last drain or clear: the newest, up to the bound. */
  function Newest(cfg: Config, ops: seq<Op>, user: string): seq<Message> {
    LastN(Since(ops, user), Max(cfg.maxQueueSizePerUser, 1))
  }

  /** A drain returns a message exactly if it is one of the newest and younger than the time to live. */
  lemma DrainedExactly(cfg: Config, ops: seq<Op>, user: string, now: int, m: Message)
    requires cfg.enabled && Timed(ops) && (ops == [] || Time(ops[|ops| - 1]) <= now)
    requires 1 <= cfg.messageTtlSeconds < I64_LIMIT
    ensures m in Drained(cfg, ops, user, now)
       <==> m in Newest(cfg, ops, user) && now - m.queuedAt < 1000 * cfg.messageTtlSeconds
  {
    DrainReturnsNewestLive(cfg, ops, user, now);
    LiveAreYoung(Newest(cfg, ops, user), cfg.messageTtlSeconds, now);
  }

  /** It returns them in order, as the end of the newest: the first `k` are too old, the others are not. */
  lemma DrainedFrom(cfg: Config, ops: seq<Op>, user: string, now: int) returns (k: nat)
    requires cfg.enabled && Timed(ops) && (ops == [] || Time(ops[|ops| - 1]) <= now)
    requires 1 <= cfg.messageTtlSeconds < I64_LIMIT
    ensures var newest := Newest(cfg, ops, user);
      && k <= |newest| && Drained(cfg, ops, user, now) == newest[k..]
      && (forall i :: 0 <= i < k ==> now - newest[i].queuedAt >= 1000 * cfg.messageTtlSeconds)
      && (forall i :: k <= i < |newest| ==> now - newest[i].queuedAt < 1000 * cfg.messageTtlSeconds)
  {
    DrainReturnsNewestLive(cfg, ops, user, now);
    SinceInOrder(ops, user);
    LastNInOrder(Since(ops, user), Bound(cfg));
    k := LiveFrom(cfg, Newest(cfg, ops, user), now);
  }

  lemma LiveFrom(cfg: Config, q: seq<Message>, now: int) returns (k: nat)
    requires forall i, j :: 0 <= i < j < |q| ==> q[i].queuedAt <= q[j].queuedAt
    requires 1 <= cfg.messageTtlSeconds < I64_LIMIT
    ensures k <= |q| && Live(q, cfg.messageTtlSeconds, now) == q[k..]
    ensures forall i :: 0 <= i < k ==> now - q[i].queuedAt >= 1000 * cfg.messageTtlSeconds
    ensures forall i :: k <= i < |q| ==> now - q[i].queuedAt < 1000 * cfg.messageTtlSeconds
  {
    var ttl := cfg.messageTtlSeconds;
    var live := Live(q, ttl, now);
    LiveIsSuffix(cfg, q, now);
    LiveAreYoung(q, ttl, now);
    k := |q| - |live|;
    forall i | 0 <= i < k
      ensures now - q[i].queuedAt >= 1000 * ttl
    {
      ExpiredByAge(q[i], ttl, now);
    }
    forall i | k <= i < |q|
      ensures now - q[i].queuedAt < 1000 * ttl
    {
      assert q[i] == live[i - k];
      assert Young(live[i - k], ttl, now);
    }
  }

  /** With a time to live of zero, or one that the cast makes negative, a drain returns nothing. */
  lemma CastTtlDrainsNothing(cfg: Config, ops: seq<Op>, user: string, now: int)
    requires cfg.enabled && Timed(ops) && (ops == [] || Time(ops[|ops| - 1]) <= now)
    requires cfg.messageTtlSeconds == 0 || I64_LIMIT <= cfg.messageTtlSeconds < U64
    ensures Drained(cfg, ops, user, now) == []
  {
    DrainReturnsNewestLive(cfg, ops, user, now);
    SinceInOrder(ops, user);
    assert forall m :: m in Newest(cfg, ops, user) ==> m in Since(ops, user);
    AllExpired(Newest(cfg, ops, user), cfg.messageTtlSeconds, now);
  }

  lemma {:induction false} AllExpired(q: seq<Message>, ttlSeconds: nat, now: int)
    requires ttlSeconds == 0 || I64_LIMIT <= ttlSeconds < U64
    requires forall m :: m in q ==> m.queuedAt <= now
    ensures Live(q, ttlSeconds, now) == []
  {
    if q != [] {
      ExpiredByAge(q[0], ttlSeconds, now);
      AllExpired(q[1..], ttlSeconds, now);
    }
  }

  /** A cleanup keeps a message exactly if it is younger than the time to live, and a queue exactly if it
      keeps one of its messages. */
  lemma CleanedExactly(queues: Queues, ttlSeconds: nat, now: int, user: string, m: Message)
    requires 1 <= ttlSeconds < I64_LIMIT
    ensures m in Waiting(Cleaned(queues, ttlSeconds, now), user)
       <==> m in Waiting(queues, user) && now - m.queuedAt < 1000 * ttlSeconds
    ensures user in Cleaned(queues, ttlSeconds, now)
       <==> exists young :: young in Waiting(queues, user) && now - young.queuedAt < 1000 * ttlSeconds
  {
    var live := Live(Waiting(queues, user), ttlSeconds, now);
    CleanedWaiting(queues, ttlSeconds, now, user);
    LiveAreYoung(Waiting(queues, user), ttlSeconds, now);
    if live != [] {
      assert live[0] in live && Young(live[0], ttlSeconds, now);
    }
    if young :| young in Waiting(queues, user) && now - young.queuedAt < 1000 * ttlSeconds {
      assert Young(young, ttlSeconds, now) && young in live;
    }
  }

  /** The run with its cleanups left out. */
  function WithoutCleanups(ops: seq<Op>): seq<Op>
    decreases |ops|
  {
    if ops == [] then []
    else
      var init := WithoutCleanups(ops[..|ops| - 1]);
      if ops[|ops| - 1].Cleanup? then init else init + [ops[|ops| - 1]]
  }

  lemma {:induction false} CleanupsNotSent(ops: seq<Op>, user: string)
    requires Timed(ops)
    ensures Since(WithoutCleanups(ops), user) == Since(ops, user)
    ensures Timed(WithoutCleanups(ops))
    ensures forall op :: op in WithoutCleanups(ops) ==> op in ops
    decreases |ops|
  {
    if ops != [] {
      var init, op := ops[..|ops| - 1], ops[|ops| - 1];
      CleanupsNotSent(init, user);
      if !op.Cleanup? {
        var kept := WithoutCleanups(init);
        assert (kept + [op])[..|kept|] == kept;
        forall i | 0 <= i < |kept|
          ensures Time(kept[i]) <= Time(op)
        {
          assert kept[i] in init;
        }
      }
    }
  }

  /** Cleanups, wherever they stand in a run, never change what a later drain returns. */
  lemma CleanupUnobservable(cfg: Config, ops: seq<Op>, user: string, now: int)
    requires Timed(ops) && (ops == [] || Time(ops[|ops| - 1]) <= now)
    ensures Drained(cfg, ops, user, now) == Drained(cfg, WithoutCleanups(ops), user, now)
  {
    var kept := WithoutCleanups(ops);
    CleanupsNotSent(ops, user);
    if cfg.enabled {
      DrainReturnsNewestLive(cfg, ops, user, now);
      if kept != [] {
        assert kept[|kept| - 1] in ops;
      }
      DrainReturnsNewestLive(cfg, kept, user, now);
    }
  }
}
