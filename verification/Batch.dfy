/** Batch sending, with deduplication by target and event type. */
module Batches {
  import opened Strings
  import opened ConnectionManagers
  import opened Tenancy

  datatype Target =
    | User(id: string)
    | Users(ids: seq<string>)
    | Broadcast
    | Channel(name: string)
    | Channels(names: seq<string>)

  // ---- the deduplication key ----

  function InsertString(sorted: seq<string>, s: string): seq<string> {
    if sorted == [] || !Less(sorted[0], s) then [s] + sorted else [sorted[0]] + InsertString(sorted[1..], s)
  }

  function Sorted(ids: seq<string>): seq<string> {
    if ids == [] then [] else InsertString(Sorted(ids[1..]), ids[0])
  }

  function Join(ids: seq<string>): string {
    if ids == [] then "" else if |ids| == 1 then ids[0] else ids[0] + "," + Join(ids[1..])
  }

  function DedupKey(target: Target): string {
    match target
    case User(id) => "user:" + id
    case Users(ids) => "users:" + Join(Sorted(ids))
    case Broadcast => "broadcast"
    case Channel(name) => "channel:" + name
    case Channels(names) => "channels:" + Join(Sorted(names))
  }

  function ItemKey(target: Target, eventType: string): string {
    DedupKey(target) + ":" + eventType
  }

  /** The target for the dispatcher: channels are namespaced for the tenant, if there is one. */
  function IntoNotificationTarget(target: Target, tenant: Option<TenantContext>): Target {
    if tenant.None? then target
    else
      match target
      case Channel(name) => Channel(tenant.value.NamespaceChannel(name))
      case Channels(names) =>
        Channels(seq(|names|, i requires 0 <= i < |names| => tenant.value.NamespaceChannel(names[i])))
      case _ => target
  }

  // ---- when two keys are equal ----

  predicate Clean(id: string) {
    ':' !in id && ',' !in id
  }

  predicate AllClean(ids: seq<string>) {
    forall i :: 0 <= i < |ids| ==> Clean(ids[i])
  }

  /** No part of a target has a colon; in lists there is no comma either, and one empty id is not a list. */
  predicate CleanTarget(target: Target) {
    match target
    case User(id) => ':' !in id
    case Users(ids) => AllClean(ids) && ids != [""]
    case Broadcast => true
    case Channel(name) => ':' !in name
    case Channels(names) => AllClean(names) && names != [""]
  }

  /** The same target, up to the order of its list. */
  predicate SameTarget(a: Target, b: Target) {
    match a
    case User(id) => b == a
    case Users(ids) => b.Users? && multiset(ids) == multiset(b.ids)
    case Broadcast => b == a
    case Channel(name) => b == a
    case Channels(names) => b.Channels? && multiset(names) == multiset(b.names)
  }

  predicate InOrder(ids: seq<string>) {
    forall i, j :: 0 <= i < j < |ids| ==> !Less(ids[j], ids[i])
  }

  lemma {:induction false} InsertStringPermutes(sorted: seq<string>, s: string)
    ensures multiset(InsertString(sorted, s)) == multiset(sorted) + multiset{s}
  {
    if sorted != [] && Less(sorted[0], s) {
      InsertStringPermutes(sorted[1..], s);
      assert sorted == [sorted[0]] + sorted[1..];
    }
  }

  lemma InOrderCons(s: string, sorted: seq<string>)
    requires InOrder(sorted) && forall j :: 0 <= j < |sorted| ==> !Less(sorted[j], s)
    ensures InOrder([s] + sorted)
  {
  }

  lemma {:induction false} InsertStringOrdered(sorted: seq<string>, s: string)
    requires InOrder(sorted)
    ensures InOrder(InsertString(sorted, s))
  {
    if sorted != [] && Less(sorted[0], s) {
      InsertStringOrdered(sorted[1..], s);
      InsertStringPermutes(sorted[1..], s);
      var rest := InsertString(sorted[1..], s);
      LessTrichotomy(sorted[0], s);
      forall j | 0 <= j < |rest|
        ensures !Less(rest[j], sorted[0])
      {
        assert rest[j] in multiset(rest);
        assert rest[j] == s || rest[j] in sorted[1..];
      }
      InOrderCons(sorted[0], rest);
    } else if sorted != [] {
      forall j | 0 <= j < |sorted|
        ensures !Less(sorted[j], s)
      {
        NotLessTransitive(s, sorted[0], sorted[j]);
      }
      InOrderCons(s, sorted);
    }
  }

  lemma NotLessTransitive(a: string, b: string, c: string)
    requires !Less(b, a) && (!Less(c, b) || b == c)
    ensures !Less(c, a)
  {
    LessTrichotomy(a, b);
    LessTrichotomy(b, c);
    LessTrichotomy(a, c);
    if Less(c, a) && Less(a, b) {
      LessTransitive(c, a, b);
    }
  }

  lemma {:induction false} SortedOrdered(ids: seq<string>)
    ensures InOrder(Sorted(ids)) && multiset(Sorted(ids)) == multiset(ids)
  {
    if ids != [] {
      SortedOrdered(ids[1..]);
      InsertStringOrdered(Sorted(ids[1..]), ids[0]);
      InsertStringPermutes(Sorted(ids[1..]), ids[0]);
      assert ids == [ids[0]] + ids[1..];
    }
  }

  /** A multiset of strings has one ordered listing. */
  lemma {:induction false} OrderedUnique(a: seq<string>, b: seq<string>)
    requires InOrder(a) && InOrder(b) && multiset(a) == multiset(b)
    ensures a == b
  {
    if a == [] || b == [] {
      assert |a| == |multiset(a)| == |multiset(b)| == |b|;
    } else {
      SameFirst(a, b);
      TailMultiset(a);
      TailMultiset(b);
      OrderedUnique(a[1..], b[1..]);
      assert a == [a[0]] + a[1..] && b == [b[0]] + b[1..];
    }
  }

  lemma SameFirst(a: seq<string>, b: seq<string>)
    requires InOrder(a) && InOrder(b) && a != [] && b != [] && multiset(a) == multiset(b)
    ensures a[0] == b[0]
  {
    LeastFirst(a, b);
    LeastFirst(b, a);
    LessTrichotomy(a[0], b[0]);
  }

  lemma TailMultiset(a: seq<string>)
    requires a != []
    ensures multiset(a[1..]) == multiset(a) - multiset{a[0]}
  {
    assert a == [a[0]] + a[1..];
  }

  lemma LeastFirst(a: seq<string>, b: seq<string>)
    requires InOrder(b) && a != [] && b != [] && multiset(a) == multiset(b)
    ensures !Less(a[0], b[0])
  {
    assert a[0] in multiset(b);
    var i :| 0 <= i < |b| && b[i] == a[0];
    LessTrichotomy(b[0], b[0]);
  }

  /** Two strings that agree up to a first separator agree after it. */
  lemma SplitAtFirst(a: string, x: string, b: string, y: string, sep: char)
    requires sep !in a && sep !in b && a + [sep] + x == b + [sep] + y
    ensures a == b && x == y
  {
    var s, t := a + [sep] + x, b + [sep] + y;
    assert s[|a|] == sep && t[|b|] == sep;
    assert forall i :: 0 <= i < |a| ==> s[i] == a[i];
    assert forall i :: 0 <= i < |b| ==> t[i] == b[i];
    assert |a| == |b|;
    assert a == s[..|a|] && b == t[..|b|];
    assert x == s[|a| + 1..] && y == t[|b| + 1..];
  }

  lemma {:induction false} JoinHasComma(ids: seq<string>)
    requires AllClean(ids)
    ensures ':' !in Join(ids)
    ensures ',' in Join(ids) <==> |ids| >= 2
  {
    if |ids| >= 2 {
      JoinHasComma(ids[1..]);
      assert Clean(ids[0]);
      assert Join(ids)[|ids[0]|] == ',';
    } else if |ids| == 1 {
      assert Clean(ids[0]);
    }
  }

  lemma {:induction false} JoinInjective(a: seq<string>, b: seq<string>)
    requires AllClean(a) && AllClean(b) && Join(a) == Join(b) && (a == [] <==> b == [])
    ensures a == b
  {
    JoinHasComma(a);
    JoinHasComma(b);
    if |a| >= 2 {
      assert Clean(a[0]) && Clean(b[0]);
      SplitAtFirst(a[0], Join(a[1..]), b[0], Join(b[1..]), ',');
      JoinInjective(a[1..], b[1..]);
      assert a == [a[0]] + a[1..] && b == [b[0]] + b[1..];
    } else if |a| == 1 {
      assert a == [a[0]] && b == [b[0]];
    }
  }

  lemma SortedKeysEqual(a: seq<string>, b: seq<string>)
    requires AllClean(a) && AllClean(b) && a != [""] && b != [""]
    ensures Join(Sorted(a)) == Join(Sorted(b)) <==> multiset(a) == multiset(b)
    ensures ':' !in Join(Sorted(a))
  {
    SortedOrdered(a);
    SortedOrdered(b);
    SortedClean(a);
    SortedClean(b);
    SortedLength(a);
    SortedLength(b);
    JoinHasComma(Sorted(a));
    JoinHasComma(Sorted(b));
    if Join(Sorted(a)) == Join(Sorted(b)) {
      JoinInjective(Sorted(a), Sorted(b));
    }
    if multiset(a) == multiset(b) {
      OrderedUnique(Sorted(a), Sorted(b));
    }
  }

  lemma SortedLength(ids: seq<string>)
    ensures |Sorted(ids)| == |ids|
    ensures |ids| == 1 ==> Sorted(ids) == ids
  {
    SortedOrdered(ids);
    assert |multiset(Sorted(ids))| == |multiset(ids)|;
    if |ids| == 1 {
      assert Sorted(ids[1..]) == [];
    }
  }

  lemma SortedClean(ids: seq<string>)
    requires AllClean(ids)
    ensures AllClean(Sorted(ids))
  {
    SortedOrdered(ids);
    forall i | 0 <= i < |Sorted(ids)|
      ensures Clean(Sorted(ids)[i])
    {
      assert Sorted(ids)[i] in multiset(ids);
      var j :| 0 <= j < |ids| && ids[j] == Sorted(ids)[i];
    }
  }

  function KindName(target: Target): string {
    match target
    case User(_) => "user"
    case Users(_) => "users"
    case Broadcast => "broadcast"
    case Channel(_) => "channel"
    case Channels(_) => "channels"
  }

  /** What the key says of the target after its kind. */
  function Body(target: Target): string {
    match target
    case User(id) => id
    case Users(ids) => Join(Sorted(ids))
    case Broadcast => ""
    case Channel(name) => name
    case Channels(names) => Join(Sorted(names))
  }

  lemma KeyParts(target: Target, eventType: string)
    ensures ItemKey(target, eventType)
         == KindName(target) + ":" + if target.Broadcast? then eventType else Body(target) + ":" + eventType
    ensures ':' !in KindName(target)
  {
    if !target.Broadcast? {
      DedupKeyParts(target);
      TwoColons(KindName(target), Body(target), eventType);
    }
  }

  lemma DedupKeyParts(target: Target)
    requires !target.Broadcast?
    ensures DedupKey(target) == KindName(target) + ":" + Body(target)
  {
    var b := Body(target);
    assert "user" + ":" + b == "user:" + b && "users" + ":" + b == "users:" + b;
    assert "channel" + ":" + b == "channel:" + b && "channels" + ":" + b == "channels:" + b;
  }

  lemma BodiesEqual(a: Target, b: Target)
    requires CleanTarget(a) && CleanTarget(b) && KindName(a) == KindName(b)
    ensures Body(a) == Body(b) <==> SameTarget(a, b)
    ensures ':' !in Body(a)
  {
    match a {
      case Users(ids) => SortedKeysEqual(ids, b.ids);
      case Channels(names) => SortedKeysEqual(names, b.names);
      case _ =>
    }
  }

  /** Between clean targets the key identifies target and event type, whatever the event types contain. */
  lemma KeyExact(a: Target, e: string, b: Target, f: string)
    requires CleanTarget(a) && CleanTarget(b)
    ensures ItemKey(a, e) == ItemKey(b, f) <==> SameTarget(a, b) && e == f
  {
    KeyParts(a, e);
    KeyParts(b, f);
    if ItemKey(a, e) == ItemKey(b, f) {
      SplitAtFirst(KindName(a), if a.Broadcast? then e else Body(a) + ":" + e,
                   KindName(b), if b.Broadcast? then f else Body(b) + ":" + f, ':');
    }
    if KindName(a) == KindName(b) {
      BodiesEqual(a, b);
      BodiesEqual(b, a);
      if ItemKey(a, e) == ItemKey(b, f) && !a.Broadcast? {
        SplitAtFirst(Body(a), e, Body(b), f, ':');
      }
    }
  }

  // ---- when a key is shared with no other item at all ----

  /** Only the same target with the same event type has this key. */
  ghost predicate OwnKey(a: Target, e: string) {
    forall b, f :: ItemKey(a, e) == ItemKey(b, f) ==> SameTarget(a, b) && e == f
  }

  /** An id that no list of two or more ids in order joins to. */
  predicate Indivisible(id: string) {
    id != "" && ':' !in id && forall c :: 0 <= c < |id| && id[c] == ',' ==> Less(id[c + 1..], id[..c])
  }

  predicate Unmistakable(a: Target, e: string) {
    match a
    case User(id) => ':' !in id && ':' !in e
    case Users(ids) => |ids| == 1 && Indivisible(ids[0]) && ':' !in e
    case Broadcast => true
    case Channel(name) => ':' !in name && ':' !in e
    case Channels(names) => |names| == 1 && Indivisible(names[0]) && ':' !in e
  }

  lemma AtColon(s: string) returns (left: string, right: string)
    requires ':' in s
    ensures s == left + ":" + right && |right| < |s|
  {
    var c :| 0 <= c < |s| && s[c] == ':';
    left, right := s[..c], s[c + 1..];
  }

  lemma TwoColons(x: string, y: string, z: string)
    ensures (x + ":" + y) + ":" + z == x + ":" + (y + ":" + z)
  {
  }

  /** The same body and event type, with the border moved to another colon. */
  lemma BorderMoves(body: string, e: string) returns (body': string, e': string)
    requires ':' in body || ':' in e
    ensures body + ":" + e == body' + ":" + e' && e != e'
  {
    if ':' in body {
      var left, right := AtColon(body);
      TwoColons(left, right, e);
      body', e' := left, right + ":" + e;
      assert |e'| > |e|;
    } else {
      var left, right := AtColon(e);
      TwoColons(body, left, right);
      body', e' := body + ":" + left, right;
    }
  }

  /** A target of the same kind as `a` with this text as its body. */
  function WithBody(a: Target, body: string): Target {
    match a
    case User(_) => User(body)
    case Users(_) => Users([body])
    case Broadcast => Broadcast
    case Channel(_) => Channel(body)
    case Channels(_) => Channels([body])
  }

  lemma WithBodyKey(a: Target, body: string, e: string)
    requires !a.Broadcast?
    ensures ItemKey(WithBody(a, body), e) == KindName(a) + ":" + (body + ":" + e)
  {
    SortedLength([body]);
    KeyParts(WithBody(a, body), e);
  }

  lemma SameBodySameKey(a: Target, e: string, b: Target, f: string)
    requires KindName(a) == KindName(b) && !a.Broadcast? && Body(a) + ":" + e == Body(b) + ":" + f
    ensures ItemKey(a, e) == ItemKey(b, f)
  {
    KeyParts(a, e);
    KeyParts(b, f);
  }

  lemma ColonSharesKey(a: Target, e: string)
    requires !a.Broadcast? && (':' in Body(a) || ':' in e)
    ensures !OwnKey(a, e)
  {
    var body, f := BorderMoves(Body(a), e);
    WithBodyKey(a, body, f);
    KeyParts(a, e);
  }

  /** A list other than one indivisible id has the key of a list of a different length. */
  lemma OtherLength(ids: seq<string>) returns (other: seq<string>)
    requires |ids| != 1 || !Indivisible(ids[0])
    requires ':' !in Join(Sorted(ids))
    ensures |other| != |ids| && Join(Sorted(other)) == Join(Sorted(ids))
  {
    SortedLength(ids);
    if |ids| == 0 {
      other := [""];
      SortedLength(other);
    } else if |ids| >= 2 {
      other := [Join(Sorted(ids))];
      SortedLength(other);
    } else if ids[0] == "" {
      other := [];
    } else {
      var id := ids[0];
      var c :| 0 <= c < |id| && id[c] == ',' && !Less(id[c + 1..], id[..c]);
      other := [id[..c], id[c + 1..]];
      SortedPair(id[..c], id[c + 1..]);
      assert id == id[..c] + "," + id[c + 1..];
    }
  }

  lemma SortedPair(x: string, y: string)
    requires !Less(y, x)
    ensures Sorted([x, y]) == [x, y] && Join([x, y]) == x + "," + y
  {
    assert [x, y][1..] == [y];
    SortedLength([y]);
  }

  lemma ListSharesKey(a: Target, e: string)
    requires (a.Users? || a.Channels?) && !Unmistakable(a, e) && ':' !in Body(a) && ':' !in e
    ensures !OwnKey(a, e)
  {
    var ids := if a.Users? then a.ids else a.names;
    SortedLength(ids);
    var other := OtherLength(ids);
    assert |multiset(other)| == |other| && |multiset(ids)| == |ids|;
    var b := if a.Users? then Users(other) else Channels(other);
    SameBodySameKey(a, e, b, e);
    assert !SameTarget(a, b);
  }

  lemma {:induction false} PrefixNotGreater(p: string, q: string)
    ensures !Less(p + q, p)
  {
    if p != "" {
      assert (p + q)[1..] == p[1..] + q;
      PrefixNotGreater(p[1..], q);
    }
  }

  lemma RestNotLess(ids: seq<string>)
    requires InOrder(ids) && |ids| >= 2
    ensures !Less(Join(ids[1..]), ids[0])
  {
    var rest := Join(ids[1..]);
    var more := if |ids| == 2 then "" else "," + Join(ids[2..]);
    assert ids[1..][1..] == ids[2..];
    assert rest == ids[1] + more;
    PrefixNotGreater(ids[1], more);
    NotLessTransitive(ids[0], ids[1], rest);
  }

  lemma OnlyOneJoinsTo(ids: seq<string>, id: string)
    requires InOrder(ids) && Join(ids) == id && Indivisible(id)
    ensures ids == [id]
  {
    if |ids| >= 2 {
      var c, rest := |ids[0]|, Join(ids[1..]);
      assert id == ids[0] + "," + rest;
      assert id[c] == ',' && id[..c] == ids[0] && id[c + 1..] == rest;
      RestNotLess(ids);
    }
  }

  /** With a single colon in the text there is a single way to read it. */
  lemma OneColon(x: string, e: string, y: string, f: string)
    requires ':' !in x && ':' !in e && x + ":" + e == y + ":" + f
    ensures x == y && e == f
  {
    var s, t := x + ":" + e, y + ":" + f;
    assert forall i :: 0 <= i < |x| ==> s[i] == x[i];
    assert forall i :: |x| < i < |s| ==> s[i] == e[i - |x| - 1];
    assert t[|y|] == ':';
    assert |x| == |y|;
    assert x == s[..|x|] && y == t[..|x|];
    assert e == s[|x| + 1..] && f == t[|x| + 1..];
  }

  lemma UnmistakableOwnsKey(a: Target, e: string, b: Target, f: string)
    requires Unmistakable(a, e) && ItemKey(a, e) == ItemKey(b, f)
    ensures SameTarget(a, b) && e == f
  {
    KeyParts(a, e);
    KeyParts(b, f);
    SplitAtFirst(KindName(a), if a.Broadcast? then e else Body(a) + ":" + e,
                 KindName(b), if b.Broadcast? then f else Body(b) + ":" + f, ':');
    match a {
      case Broadcast =>
      case User(id) => OneColon(id, e, Body(b), f);
      case Channel(name) => OneColon(name, e, Body(b), f);
      case Users(ids) => SingleOwnsKey(ids, e, b.ids, f);
      case Channels(names) => SingleOwnsKey(names, e, b.names, f);
    }
  }

  lemma SingleOwnsKey(ids: seq<string>, e: string, others: seq<string>, f: string)
    requires |ids| == 1 && Indivisible(ids[0]) && ':' !in e
    requires Join(Sorted(ids)) + ":" + e == Join(Sorted(others)) + ":" + f
    ensures multiset(ids) == multiset(others) && e == f
  {
    SortedLength(ids);
    OneColon(ids[0], e, Join(Sorted(others)), f);
    SortedOrdered(others);
    OnlyOneJoinsTo(Sorted(others), ids[0]);
    assert ids == [ids[0]];
  }

  /** When no other item, clean or not, can have an item's key: never for two or more ids. */
  lemma OwnKeyExactly(a: Target, e: string)
    ensures OwnKey(a, e) <==> Unmistakable(a, e)
  {
    if Unmistakable(a, e) {
      forall b, f | ItemKey(a, e) == ItemKey(b, f)
        ensures SameTarget(a, b) && e == f
      {
        UnmistakableOwnsKey(a, e, b, f);
      }
    } else if ':' in Body(a) || ':' in e {
      ColonSharesKey(a, e);
    } else {
      ListSharesKey(a, e);
    }
  }

  // ---- collisions ----

  /** A colon moves the border between id and event type, */
  lemma ColonCollides()
    ensures ItemKey(User("a:b"), "c") == ItemKey(User("a"), "b:c") && !SameTarget(User("a:b"), User("a"))
  {
  }

  /** a comma merges two ids into one, */
  lemma CommaCollides()
    ensures ItemKey(Users(["a,b"]), "e") == ItemKey(Users(["a", "b"]), "e")
      && !SameTarget(Users(["a,b"]), Users(["a", "b"]))
  {
    assert ["a", "b"][1..] == ["b"];
    assert Less("a", "b") && !Less("b", "a");
    assert Sorted(["b"]) == ["b"];
    assert Sorted(["a", "b"]) == InsertString(["b"], "a") == ["a", "b"];
    assert Join(["a", "b"]) == "a" + "," + Join(["b"]) == "a,b";
    assert |multiset(["a,b"])| == 1 && |multiset(["a", "b"])| == 2;
  }

  /** and an empty id stands for no id. */
  lemma EmptyIdCollides()
    ensures ItemKey(Users([""]), "e") == ItemKey(Users([]), "e") && !SameTarget(Users([""]), Users([]))
  {
    assert Sorted([""]) == [""];
    assert |multiset([""])| == 1;
  }

  // ---- sending a batch ----

  const MAX_BATCH_SIZE := 100

  /** An item whose content resolves has an event type. */
  datatype Item = Item(target: Target, content: Content)
  datatype Content = Resolved(eventType: string) | Unresolved(error: string)

  datatype Options = Options(stopOnError: bool, deduplicate: bool)

  /** What dispatching an item leads to. */
  datatype Delivery = Delivery(delivered: nat, failed: nat) {
    predicate Success() { delivered > 0 }
  }

  datatype ItemResult = ItemResult(
    index: nat, delivered: nat, failed: nat, success: bool, error: Option<string>, skipped: bool)

  datatype Summary = Summary(total: nat, succeeded: nat, failed: nat, skipped: nat, totalDelivered: nat)

  datatype Response = BatchTooLarge | BatchEmpty | Sent(results: seq<ItemResult>, summary: Summary)

  /** An earlier item resolved and has the same key. */
  predicate Duplicate(items: seq<Item>, i: nat)
    requires i < |items| && items[i].content.Resolved?
  {
    exists j :: 0 <= j < i && items[j].content.Resolved?
      && ItemKey(items[j].target, items[j].content.eventType) == ItemKey(items[i].target, items[i].content.eventType)
  }

  predicate Dispatched(items: seq<Item>, options: Options, i: nat)
    requires i < |items|
  {
    items[i].content.Resolved? && !(options.deduplicate && Duplicate(items, i))
  }

  function ResultOf(items: seq<Item>, options: Options, deliver: nat -> Delivery, i: nat): ItemResult
    requires i < |items|
  {
    match items[i].content
    case Unresolved(error) => ItemResult(i, 0, 0, false, Some(error), false)
    case Resolved(_) =>
      if Dispatched(items, options, i)
      then ItemResult(i, deliver(i).delivered, deliver(i).failed, deliver(i).Success(), None, false)
      else ItemResult(i, 0, 0, true, None, true)
  }

  function NotReached(i: nat): ItemResult {
    ItemResult(i, 0, 0, false, Some("Skipped due to stop_on_error"), true)
  }

  /** Processing ends with this item. */
  predicate StopsAt(items: seq<Item>, options: Options, deliver: nat -> Delivery, i: nat)
    requires i < |items|
  {
    options.stopOnError && !ResultOf(items, options, deliver, i).success
  }

  /** A summary counts every result once: skipped, else succeeded, else failed. */
  function Tally(results: seq<ItemResult>, total: nat): Summary {
    if results == [] then Summary(total, 0, 0, 0, 0)
    else
      var r, s := results[|results| - 1], Tally(results[..|results| - 1], total);
      var s' := s.(totalDelivered := s.totalDelivered + r.delivered);
      if r.skipped then s'.(skipped := s.skipped + 1)
      else if r.success then s'.(succeeded := s.succeeded + 1)
      else s'.(failed := s.failed + 1)
  }

  lemma TallySnoc(results: seq<ItemResult>, r: ItemResult, total: nat)
    ensures var s := Tally(results, total);
      Tally(results + [r], total) == Summary(total,
        if !r.skipped && r.success then s.succeeded + 1 else s.succeeded,
        if !r.skipped && !r.success then s.failed + 1 else s.failed,
        if r.skipped then s.skipped + 1 else s.skipped,
        s.totalDelivered + r.delivered)
  {
    assert (results + [r])[..|results|] == results;
  }

  /** The notifications handed to the dispatcher for the first `n` items. */
  function Dispatches(items: seq<Item>, options: Options, tenant: Option<TenantContext>, n: nat): seq<(Target, string)>
    requires n <= |items|
  {
    if n == 0 then []
    else
      Dispatches(items, options, tenant, n - 1)
      + if Dispatched(items, options, n - 1)
        then [(IntoNotificationTarget(items[n - 1].target, tenant), items[n - 1].content.eventType)] else []
  }

  /** `n` items were processed; the results go on to the end of the batch unless it stopped at an item whose
      content did not resolve. */
  ghost predicate Processed(
    items: seq<Item>, options: Options, deliver: nat -> Delivery, results: seq<ItemResult>, n: nat)
  {
    && 0 < n <= |items|
    && (forall i :: 0 <= i < n - 1 ==> !StopsAt(items, options, deliver, i))
    && (n == |items| || StopsAt(items, options, deliver, n - 1))
    && |results| == (if StopsAt(items, options, deliver, n - 1) && items[n - 1].content.Unresolved? then n else |items|)
    && (forall i :: 0 <= i < n ==> results[i] == ResultOf(items, options, deliver, i))
    && (forall i :: n <= i < |results| ==> results[i] == NotReached(i))
  }

  /** After `n` items, before the loop is left. */
  ghost predicate Progress(
    items: seq<Item>, options: Options, deliver: nat -> Delivery, results: seq<ItemResult>, n: nat, stopped: bool)
  {
    && n <= |items| && (n == 0 ==> !stopped)
    && (forall i :: 0 <= i < n ==> (StopsAt(items, options, deliver, i) <==> stopped && i == n - 1))
    && |results| == (if stopped && items[n - 1].content.Resolved? then |items| else n)
    && (forall i :: 0 <= i < n ==> results[i] == ResultOf(items, options, deliver, i))
    && (forall i :: n <= i < |results| ==> results[i] == NotReached(i))
  }

  /** With deduplication on, the keys of the items that resolved so far. */
  ghost predicate SeenRight(items: seq<Item>, options: Options, n: nat, seen: set<string>)
    requires n <= |items|
  {
    options.deduplicate ==>
      forall k :: k in seen <==>
        exists j :: 0 <= j < n && items[j].content.Resolved?
          && ItemKey(items[j].target, items[j].content.eventType) == k
  }

  lemma SeenNext(items: seq<Item>, options: Options, n: nat, seen: set<string>)
    requires n < |items| && SeenRight(items, options, n, seen)
    ensures items[n].content.Unresolved? ==> SeenRight(items, options, n + 1, seen)
    ensures items[n].content.Resolved? ==>
      var key := ItemKey(items[n].target, items[n].content.eventType);
      && SeenRight(items, options, n + 1, if options.deduplicate && key !in seen then seen + {key} else seen)
      && (Dispatched(items, options, n) <==> !(options.deduplicate && key in seen))
  {
  }

  /** A result is added; processing goes on, or stops without marking further items. */
  lemma ProgressNext(
    items: seq<Item>, options: Options, deliver: nat -> Delivery, results: seq<ItemResult>, n: nat, r: ItemResult)
    requires n < |items| && Progress(items, options, deliver, results, n, false)
    requires r == ResultOf(items, options, deliver, n)
    requires StopsAt(items, options, deliver, n) ==> items[n].content.Unresolved?
    ensures Progress(items, options, deliver, results + [r], n + 1, StopsAt(items, options, deliver, n))
  {
  }

  /** A failed delivery stops the processing and the remaining items are marked. */
  lemma ProgressStops(
    items: seq<Item>, options: Options, deliver: nat -> Delivery, results: seq<ItemResult>, n: nat, r: ItemResult,
    all: seq<ItemResult>)
    requires n < |items| && Progress(items, options, deliver, results, n, false)
    requires r == ResultOf(items, options, deliver, n)
    requires StopsAt(items, options, deliver, n) && items[n].content.Resolved?
    requires |all| == |items| && all[..n + 1] == results + [r]
    requires forall i :: n + 1 <= i < |items| ==> all[i] == NotReached(i)
    ensures Progress(items, options, deliver, all, n + 1, true)
  {
    assert forall i :: 0 <= i < n + 1 ==> all[i] == all[..n + 1][i];
  }

  lemma DispatchesNext(items: seq<Item>, options: Options, tenant: Option<TenantContext>, n: nat)
    requires n < |items|
    ensures Dispatches(items, options, tenant, n + 1)
         == Dispatches(items, options, tenant, n)
            + if Dispatched(items, options, n)
              then [(IntoNotificationTarget(items[n].target, tenant), items[n].content.eventType)] else []
  {
  }

  lemma ProgressEnds(
    items: seq<Item>, options: Options, deliver: nat -> Delivery, results: seq<ItemResult>, n: nat, stopped: bool)
    requires items != [] && Progress(items, options, deliver, results, n, stopped)
    requires n == |items| || stopped
    ensures Processed(items, options, deliver, results, n)
  {
  }

  method BatchSend(items: seq<Item>, options: Options, tenant: Option<TenantContext>, deliver: nat -> Delivery)
    returns (response: Response, dispatched: seq<(Target, string)>, n: nat)
    ensures response.BatchTooLarge? <==> |items| > 100
    ensures response.BatchEmpty? <==> |items| == 0
    ensures !response.Sent? ==> dispatched == []
    ensures response.Sent? ==> Processed(items, options, deliver, response.results, n)
    ensures response.Sent? ==> response.summary == Tally(response.results, |items|)
    ensures response.Sent? ==> n <= |items| && dispatched == Dispatches(items, options, tenant, n)
  {
    dispatched, n := [], 0;
    var total := |items|;
    if total > MAX_BATCH_SIZE {
      return BatchTooLarge, [], 0;
    }
    if total == 0 {
      return BatchEmpty, [], 0;
    }
    var results: seq<ItemResult> := [];
    var summary := Summary(total, 0, 0, 0, 0);
    var seenKeys: set<string> := {};
    var stopped := false;
    while n < total && !stopped
      invariant Progress(items, options, deliver, results, n, stopped)
      invariant summary == Tally(results, total)
      invariant SeenRight(items, options, n, seenKeys)
      invariant dispatched == Dispatches(items, options, tenant, n)
      decreases total - n
    {
      results, summary, seenKeys, dispatched, stopped :=
        ProcessItem(results, summary, seenKeys, dispatched, items, options, tenant, deliver);
      n := n + 1;
    }
    ProgressEnds(items, options, deliver, results, n, stopped);
    response := Sent(results, summary);
  }

  /** Resolves the next item, passes it over if its key was seen, and else sends it. */
  method ProcessItem(
    results: seq<ItemResult>, summary: Summary, seenKeys: set<string>, dispatched: seq<(Target, string)>,
    items: seq<Item>, options: Options, tenant: Option<TenantContext>, deliver: nat -> Delivery)
    returns (results': seq<ItemResult>, summary': Summary, seenKeys': set<string>, dispatched': seq<(Target, string)>,
             stopped: bool)
    requires |results| < |items| && Progress(items, options, deliver, results, |results|, false)
    requires SeenRight(items, options, |results|, seenKeys)
    requires summary == Tally(results, |items|)
    requires dispatched == Dispatches(items, options, tenant, |results|)
    ensures Progress(items, options, deliver, results', |results| + 1, stopped)
    ensures SeenRight(items, options, |results| + 1, seenKeys')
    ensures summary' == Tally(results', |items|)
    ensures dispatched' == Dispatches(items, options, tenant, |results| + 1)
  {
    var n := |results|;
    SeenNext(items, options, n, seenKeys);
    DispatchesNext(items, options, tenant, n);
    seenKeys', dispatched', stopped := seenKeys, dispatched, false;
    match items[n].content {
      case Unresolved(error) =>
        var r := ItemResult(n, 0, 0, false, Some(error), false);
        results', summary' := Append(results, summary, r, items, options, deliver);
        stopped := options.stopOnError;
      case Resolved(eventType) =>
        var key := ItemKey(items[n].target, eventType);
        if options.deduplicate && key in seenKeys {
          var r := ItemResult(n, 0, 0, true, None, true);
          results', summary' := Append(results, summary, r, items, options, deliver);
        } else {
          if options.deduplicate {
            seenKeys' := seenKeys + {key};
          }
          results', summary', stopped := SendItem(results, summary, items, options, deliver);
          dispatched' := dispatched + [(IntoNotificationTarget(items[n].target, tenant), eventType)];
        }
    }
  }

  /** Adds the result of the next item, which was not delivered, and counts it. */
  method Append(
    results: seq<ItemResult>, summary: Summary, r: ItemResult,
    items: seq<Item>, options: Options, deliver: nat -> Delivery)
    returns (results': seq<ItemResult>, summary': Summary)
    requires |results| < |items| && Progress(items, options, deliver, results, |results|, false)
    requires r == ResultOf(items, options, deliver, |results|) && !Dispatched(items, options, |results|)
    requires summary == Tally(results, |items|)
    ensures Progress(items, options, deliver, results', |results| + 1, StopsAt(items, options, deliver, |results|))
    ensures summary' == Tally(results', |items|)
  {
    ProgressNext(items, options, deliver, results, |results|, r);
    TallySnoc(results, r, |items|);
    results' := results + [r];
    if r.skipped {
      summary' := summary.(skipped := summary.skipped + 1);
    } else {
      summary' := summary.(failed := summary.failed + 1);
    }
  }

  /** Dispatches the next item and records the outcome; on a failure the rest may be marked as skipped. */
  method SendItem(
    results: seq<ItemResult>, summary: Summary, items: seq<Item>, options: Options, deliver: nat -> Delivery)
    returns (results': seq<ItemResult>, summary': Summary, stopped: bool)
    requires |results| < |items| && Progress(items, options, deliver, results, |results|, false)
    requires Dispatched(items, options, |results|)
    requires summary == Tally(results, |items|)
    ensures Progress(items, options, deliver, results', |results| + 1, stopped)
    ensures summary' == Tally(results', |items|)
  {
    var n := |results|;
    var d := deliver(n);
    var r := ItemResult(n, d.delivered, d.failed, d.Success(), None, false);
    TallySnoc(results, r, |items|);
    results' := results + [r];
    summary' := summary.(totalDelivered := summary.totalDelivered + d.delivered);
    stopped := false;
    if d.Success() {
      ProgressNext(items, options, deliver, results, n, r);
      summary' := summary'.(succeeded := summary.succeeded + 1);
    } else {
      summary' := summary'.(failed := summary.failed + 1);
      if options.stopOnError {
        var all, skipped := MarkRest(results', n + 1, |items|, summary.skipped);
        ProgressStops(items, options, deliver, results, n, r, all);
        results', summary' := all, summary'.(skipped := skipped);
        stopped := true;
      } else {
        ProgressNext(items, options, deliver, results, n, r);
      }
    }
  }

  method MarkRest(results: seq<ItemResult>, from: nat, total: nat, skipped: nat)
    returns (all: seq<ItemResult>, skipped': nat)
    requires |results| == from <= total
    ensures |all| == total && all[..from] == results
    ensures forall i :: from <= i < total ==> all[i] == NotReached(i)
    ensures skipped' == skipped + (total - from)
    ensures Tally(all, total) == Tally(results, total).(skipped := Tally(results, total).skipped + (total - from))
  {
    all, skipped' := results, skipped;
    for i := from to total
      invariant |all| == i && all[..from] == results && skipped' == skipped + (i - from)
      invariant forall k :: from <= k < i ==> all[k] == NotReached(k)
      invariant Tally(all, total) == Tally(results, total).(skipped := Tally(results, total).skipped + (i - from))
    {
      TallySnoc(all, NotReached(i), total);
      all := all + [NotReached(i)];
      skipped' := skipped' + 1;
    }
  }

  /** With deduplication on and clean targets, an item that resolves is passed over exactly when an earlier item
      that resolved has the same target, up to the order of its list, and the same event type. */
  lemma SkippedExactly(items: seq<Item>, options: Options, i: nat)
    requires options.deduplicate && i < |items| && items[i].content.Resolved?
    requires forall j :: 0 <= j <= i && items[j].content.Resolved? ==> CleanTarget(items[j].target)
    ensures !Dispatched(items, options, i) <==>
      exists j :: 0 <= j < i && items[j].content.Resolved?
        && SameTarget(items[j].target, items[i].target) && items[j].content.eventType == items[i].content.eventType
  {
    forall j | 0 <= j < i && items[j].content.Resolved?
      ensures ItemKey(items[j].target, items[j].content.eventType)
           == ItemKey(items[i].target, items[i].content.eventType)
         <==> SameTarget(items[j].target, items[i].target) && items[j].content.eventType == items[i].content.eventType
    {
      KeyExact(items[j].target, items[j].content.eventType, items[i].target, items[i].content.eventType);
    }
  }

  /** There are fewer results than items exactly when the first item that ends the processing is one whose
      content did not resolve, and not the last item. */
  lemma ResultsFallShort(items: seq<Item>, options: Options, deliver: nat -> Delivery, results: seq<ItemResult>, n: nat)
    requires Processed(items, options, deliver, results, n)
    ensures |results| < |items| <==>
      exists i :: 0 <= i < |items| - 1 && items[i].content.Unresolved? && StopsAt(items, options, deliver, i)
        && forall j :: 0 <= j < i ==> !StopsAt(items, options, deliver, j)
  {
    if |results| < |items| {
      var i := n - 1;
      assert StopsAt(items, options, deliver, i);
    }
  }

  /** A first item that does not resolve is all that a batch answers, if it stops on errors. */
  lemma ShortBatch(
    error: string, target: Target, rest: seq<Item>, deliver: nat -> Delivery, results: seq<ItemResult>, n: nat)
    requires Processed([Item(target, Unresolved(error))] + rest, Options(true, false), deliver, results, n)
    ensures results == [ItemResult(0, 0, 0, false, Some(error), false)]
  {
    var items := [Item(target, Unresolved(error))] + rest;
    assert StopsAt(items, Options(true, false), deliver, 0);
    assert results[0] == ResultOf(items, Options(true, false), deliver, 0);
  }

  /** The counts of a summary add up to the number of results, which may be fewer than the items asked for. */
  lemma {:induction false} SummaryAddsUp(results: seq<ItemResult>, total: nat)
    ensures var s := Tally(results, total); s.succeeded + s.failed + s.skipped == |results|
  {
    if results != [] {
      SummaryAddsUp(results[..|results| - 1], total);
    }
  }

  // ---- whom a batch reaches ----

  /** The items that are dispatched among the first `n`, in order. */
  function DispatchedItems(items: seq<Item>, options: Options, n: nat): (indexes: seq<nat>)
    requires n <= |items|
    ensures forall k :: 0 <= k < |indexes| ==> indexes[k] < n
  {
    if n == 0 then []
    else DispatchedItems(items, options, n - 1) + if Dispatched(items, options, n - 1) then [n - 1] else []
  }

  /** The k-th dispatch is made for the k-th of these items. */
  lemma {:induction false} DispatchOfItem(
    items: seq<Item>, options: Options, tenant: Option<TenantContext>, n: nat, k: nat)
    requires n <= |items| && k < |Dispatches(items, options, tenant, n)|
    ensures |DispatchedItems(items, options, n)| == |Dispatches(items, options, tenant, n)|
    ensures var i := DispatchedItems(items, options, n)[k];
      && Dispatched(items, options, i)
      && Dispatches(items, options, tenant, n)[k]
         == (IntoNotificationTarget(items[i].target, tenant), items[i].content.eventType)
    decreases n
  {
    SameLength(items, options, tenant, n);
    if n > 0 {
      SameLength(items, options, tenant, n - 1);
      if k < |Dispatches(items, options, tenant, n - 1)| {
        DispatchOfItem(items, options, tenant, n - 1, k);
      }
    }
  }

  lemma {:induction false} SameLength(items: seq<Item>, options: Options, tenant: Option<TenantContext>, n: nat)
    requires n <= |items|
    ensures |DispatchedItems(items, options, n)| == |Dispatches(items, options, tenant, n)|
    decreases n
  {
    if n > 0 {
      SameLength(items, options, tenant, n - 1);
    }
  }

  /** The names of the channels a target is for. */
  function Names(target: Target): seq<string> {
    match target
    case Channel(name) => [name]
    case Channels(names) => names
    case _ => []
  }

  predicate ValidNames(target: Target, unicode: char -> bool) {
    forall i :: 0 <= i < |Names(target)| ==> IsValidChannelName(Names(target)[i], unicode)
  }

  /** The connections subscribed to one of the target's channels. */
  function Subscribers(connections: Connections, target: Target): set<Id> {
    set c | c in connections && exists ch :: ch in Names(target) && ch in connections[c].subscriptions
  }

  /** The tenant's clients that follow one of the names in their own terms. */
  function OwnFollowers(clients: Clients, tenant: string, target: Target): set<Id> {
    set c | c in clients && clients[c].tenantId == tenant
      && exists name :: name in Names(target) && name in clients[c].follows
  }

  lemma NamespacedNames(target: Target, ctx: TenantContext)
    ensures var into := IntoNotificationTarget(target, Some(ctx));
      && |Names(into)| == |Names(target)|
      && (forall i :: 0 <= i < |Names(target)| ==> Names(into)[i] == ctx.NamespaceChannel(Names(target)[i]))
      && (into.Channel? <==> target.Channel?) && (into.Channels? <==> target.Channels?)
  {
  }

  lemma FollowsThroughNames(server: Server, events: seq<Event>, tenant: string, target: Target, c: Id)
    requires server.enabled && ValidNames(target, server.unicode) && c in ClientRun(server, events)
    ensures c in Run(server, events)
    ensures c in Subscribers(Run(server, events), IntoNotificationTarget(target, Some(TenantContext(tenant))))
       <==> c in OwnFollowers(ClientRun(server, events), tenant, target)
  {
    var connections, clients := Run(server, events), ClientRun(server, events);
    var ctx := TenantContext(tenant);
    var into := IntoNotificationTarget(target, Some(ctx));
    RunImplementsClients(server, events);
    NamespacedNames(target, ctx);
    forall i | 0 <= i < |Names(target)|
      ensures Names(into)[i] in connections[c].subscriptions
         <==> clients[c].tenantId == tenant && Names(target)[i] in clients[c].follows
    {
      ChannelReachesOwnFollowers(server, events, tenant, Names(target)[i]);
      assert c in OfChannel(connections, ctx.NamespaceChannel(Names(target)[i]))
        <==> Names(into)[i] in connections[c].subscriptions;
    }
    if c in Subscribers(connections, into) {
      var ch :| ch in Names(into) && ch in connections[c].subscriptions;
      var i :| 0 <= i < |Names(into)| && Names(into)[i] == ch;
      assert Names(target)[i] in Names(target);
    }
    if c in OwnFollowers(clients, tenant, target) {
      var name :| name in Names(target) && name in clients[c].follows;
      var i :| 0 <= i < |Names(target)| && Names(target)[i] == name;
      assert Names(into)[i] in Names(into);
    }
  }

  /** With tenancy enabled, the connections subscribed to the channels a target is dispatched to on behalf of a
      tenant are exactly that tenant's followers of the names in the item. */
  lemma TargetReachesOwnFollowers(server: Server, events: seq<Event>, tenant: string, target: Target)
    requires server.enabled && ValidNames(target, server.unicode)
    ensures Subscribers(Run(server, events), IntoNotificationTarget(target, Some(TenantContext(tenant))))
         == OwnFollowers(ClientRun(server, events), tenant, target)
  {
    RunImplementsClients(server, events);
    assert Run(server, events).Keys == ClientRun(server, events).Keys;
    forall c | c in ClientRun(server, events)
      ensures c in Subscribers(Run(server, events), IntoNotificationTarget(target, Some(TenantContext(tenant))))
         <==> c in OwnFollowers(ClientRun(server, events), tenant, target)
    {
      FollowsThroughNames(server, events, tenant, target, c);
    }
  }

  /** Every dispatch of a batch: channels reach the tenant's own followers of the item's names; users, lists of
      users and broadcasts pass unchanged, and so does everything where there is no tenant; and the event type
      is the item's. */
  lemma BatchReaches(
    server: Server, events: seq<Event>, tenant: string, items: seq<Item>, options: Options, n: nat, k: nat)
    requires server.enabled && n <= |items|
    requires k < |Dispatches(items, options, Some(TenantContext(tenant)), n)|
    requires forall i :: 0 <= i < n ==> ValidNames(items[i].target, server.unicode)
    ensures |DispatchedItems(items, options, n)| == |Dispatches(items, options, Some(TenantContext(tenant)), n)|
    ensures var (target, eventType) := Dispatches(items, options, Some(TenantContext(tenant)), n)[k];
      var item := items[DispatchedItems(items, options, n)[k]];
      && item.content == Resolved(eventType)
      && Subscribers(Run(server, events), target) == OwnFollowers(ClientRun(server, events), tenant, item.target)
      && (item.target.User? || item.target.Users? || item.target.Broadcast? ==> target == item.target)
      && (item.target.Channel? <==> target.Channel?) && (item.target.Channels? <==> target.Channels?)
  {
    DispatchOfItem(items, options, Some(TenantContext(tenant)), n, k);
    var item := items[DispatchedItems(items, options, n)[k]];
    TargetReachesOwnFollowers(server, events, tenant, item.target);
  }

  lemma NoTenantUnchanged(items: seq<Item>, options: Options, n: nat, k: nat)
    requires n <= |items| && k < |Dispatches(items, options, None, n)|
    ensures |DispatchedItems(items, options, n)| == |Dispatches(items, options, None, n)|
    ensures var item := items[DispatchedItems(items, options, n)[k]];
      item.content.Resolved? && Dispatches(items, options, None, n)[k] == (item.target, item.content.eventType)
  {
    DispatchOfItem(items, options, None, n, k);
  }

  // ---- what the results and the summary tell ----

  /** The item did not resolve, or it was dispatched and reached nobody. */
  predicate Fails(items: seq<Item>, options: Options, deliver: nat -> Delivery, i: nat)
    requires i < |items|
  {
    items[i].content.Unresolved? || (Dispatched(items, options, i) && deliver(i).delivered == 0)
  }

  datatype Counts = Counts(delivered: nat, failed: nat, passed: nat, connections: nat)

  /** How many of the first `n` items were delivered, failed and passed over, and to how many connections
      they were delivered. */
  function Outcomes(items: seq<Item>, options: Options, deliver: nat -> Delivery, n: nat): Counts
    requires n <= |items|
  {
    if n == 0 then Counts(0, 0, 0, 0)
    else
      var c := Outcomes(items, options, deliver, n - 1);
      if Fails(items, options, deliver, n - 1) then c.(failed := c.failed + 1)
      else if Dispatched(items, options, n - 1) then
        c.(delivered := c.delivered + 1, connections := c.connections + deliver(n - 1).delivered)
      else c.(passed := c.passed + 1)
  }

  lemma OneMoreOutcome(
    items: seq<Item>, options: Options, deliver: nat -> Delivery, init: seq<ItemResult>, r: ItemResult, total: nat)
    requires |init| < |items| && r == ResultOf(items, options, deliver, |init|)
    requires var s := Tally(init, total);
      Outcomes(items, options, deliver, |init|) == Counts(s.succeeded, s.failed, s.skipped, s.totalDelivered)
    ensures var s := Tally(init + [r], total);
      Outcomes(items, options, deliver, |init| + 1) == Counts(s.succeeded, s.failed, s.skipped, s.totalDelivered)
  {
    TallySnoc(init, r, total);
  }

  lemma {:induction false} TallyOutcomes(
    items: seq<Item>, options: Options, deliver: nat -> Delivery, results: seq<ItemResult>, total: nat)
    requires |results| <= |items|
    requires forall i :: 0 <= i < |results| ==> results[i] == ResultOf(items, options, deliver, i)
    ensures var s := Tally(results, total);
      Outcomes(items, options, deliver, |results|) == Counts(s.succeeded, s.failed, s.skipped, s.totalDelivered)
    decreases |results|
  {
    if results != [] {
      var n := |results| - 1;
      TallyOutcomes(items, options, deliver, results[..n], total);
      OneMoreOutcome(items, options, deliver, results[..n], results[n], total);
      assert results == results[..n] + [results[n]];
    }
  }

  lemma {:induction false} TallyNotReached(results: seq<ItemResult>, n: nat, total: nat)
    requires n <= |results| && forall i :: n <= i < |results| ==> results[i] == NotReached(i)
    ensures var s, t := Tally(results[..n], total), Tally(results, total);
      t == s.(skipped := s.skipped + (|results| - n))
    decreases |results|
  {
    if n == |results| {
      assert results[..n] == results;
    } else {
      var init := results[..|results| - 1];
      assert init[..n] == results[..n];
      TallyNotReached(init, n, total);
    }
  }

  lemma {:induction false} TallyTotal(results: seq<ItemResult>, total: nat)
    ensures Tally(results, total).total == total
    decreases |results|
  {
    if results != [] {
      TallyTotal(results[..|results| - 1], total);
    }
  }

  /** The summary of a batch, told by its items and deliveries: what comes after a stop counts as skipped. */
  lemma SummaryTells(items: seq<Item>, options: Options, deliver: nat -> Delivery, results: seq<ItemResult>, n: nat)
    requires Processed(items, options, deliver, results, n)
    ensures n <= |results|
    ensures var c := Outcomes(items, options, deliver, n);
      Tally(results, |items|)
      == Summary(|items|, c.delivered, c.failed, c.passed + (|results| - n), c.connections)
    ensures forall i :: 0 <= i < n - 1 ==> !(options.stopOnError && Fails(items, options, deliver, i))
    ensures n == |items| || (options.stopOnError && Fails(items, options, deliver, n - 1))
  {
    TallyOutcomes(items, options, deliver, results[..n], |items|);
    TallyNotReached(results, n, |items|);
    TallyTotal(results[..n], |items|);
    forall i | 0 <= i < n
      ensures StopsAt(items, options, deliver, i) <==> options.stopOnError && Fails(items, options, deliver, i)
    {
    }
  }

  /** Every result, told by its item and delivery. */
  lemma ResultsTell(
    items: seq<Item>, options: Options, deliver: nat -> Delivery, results: seq<ItemResult>, n: nat, i: nat)
    requires Processed(items, options, deliver, results, n) && i < |results|
    ensures results[i].index == i
    ensures i < n ==>
      && (results[i].success <==> !Fails(items, options, deliver, i))
      && (results[i].skipped <==> items[i].content.Resolved? && !Dispatched(items, options, i))
      && results[i].error == (if items[i].content.Unresolved? then Some(items[i].content.error) else None)
      && (Dispatched(items, options, i) ==>
            results[i].delivered == deliver(i).delivered && results[i].failed == deliver(i).failed)
      && (!Dispatched(items, options, i) ==> results[i].delivered == results[i].failed == 0)
    ensures i >= n ==> results[i] == ItemResult(i, 0, 0, false, Some("Skipped due to stop_on_error"), true)
  {
  }
}
