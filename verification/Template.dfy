/** Variable substitution in notification templates. */
module Templates {
  import opened Strings

  /** A JSON value. `Obj` lists its entries in the key order in which the map iterates. */
  datatype Json =
    | Null
    | Bool(b: bool)
    | Number(text: string)
    | Str(s: string)
    | Arr(items: seq<Json>)
    | Obj(fields: seq<Field>)

  datatype Field = Field(key: string, value: Json)

  /** A variable with its value already turned into text. */
  datatype Binding = Binding(name: string, text: string)

  datatype Outcome = Rendered(value: Json) | SubstitutionFailed

  // ---- str::replace ----

  /** Left-to-right replacement of the non-overlapping occurrences of `pattern`. */
  function Replace(s: string, pattern: string, text: string): string
    requires pattern != ""
  {
    if |s| < |pattern| then s
    else if s[..|pattern|] == pattern then text + Replace(s[|pattern|..], pattern, text)
    else [s[0]] + Replace(s[1..], pattern, text)
  }

  function Placeholder(name: string): string {
    "{{" + name + "}}"
  }

  /** The text put in place of a variable; `display` is the JSON writer used for arrays and objects. */
  function Replacement(value: Json, display: Json -> string): string {
    match value
    case Str(s) => s
    case Number(text) => text
    case Bool(b) => if b then "true" else "false"
    case Null => ""
    case _ => display(value)
  }

  function Bindings(variables: seq<Field>, display: Json -> string): (vars: seq<Binding>) {
    seq(|variables|, i requires 0 <= i < |variables| =>
      Binding(variables[i].key, Replacement(variables[i].value, display)))
  }

  function SubstituteText(template: string, vars: seq<Binding>): string
    decreases |vars|
  {
    if vars == [] then template
    else SubstituteText(Replace(template, Placeholder(vars[0].name), vars[0].text), vars[1..])
  }

  method SubstituteString(template: string, variables: seq<Field>, display: Json -> string) returns (result: string)
    ensures result == SubstituteText(template, Bindings(variables, display))
  {
    result := template;
    ghost var vars := Bindings(variables, display);
    for i := 0 to |variables|
      invariant SubstituteText(result, vars[i..]) == SubstituteText(template, vars)
    {
      var pattern := Placeholder(variables[i].key);
      var replacement := Replacement(variables[i].value, display);
      result := Replace(result, pattern, replacement);
      assert vars[i..][1..] == vars[i + 1..];
    }
  }

  // ---- the JSON tree ----

  /** Insertion into an ordered map: an equal key keeps its place and takes the new value. */
  function Insert(fields: seq<Field>, f: Field): seq<Field> {
    if fields == [] || Less(f.key, fields[0].key) then [f] + fields
    else if fields[0].key == f.key then [f] + fields[1..]
    else [fields[0]] + Insert(fields[1..], f)
  }

  function SubstituteValue(value: Json, vars: seq<Binding>): Json {
    match value
    case Str(s) => Str(SubstituteText(s, vars))
    case Arr(items) => Arr(SubstituteItems(items, vars))
    case Obj(fields) => Obj(SubstituteFields(fields, vars, []))
    case _ => value
  }

  function SubstituteItems(items: seq<Json>, vars: seq<Binding>): seq<Json> {
    if items == [] then [] else [SubstituteValue(items[0], vars)] + SubstituteItems(items[1..], vars)
  }

  function SubstituteFields(fields: seq<Field>, vars: seq<Binding>, rendered: seq<Field>): seq<Field>
    decreases fields
  {
    if fields == [] then rendered
    else
      var f := Field(SubstituteText(fields[0].key, vars), SubstituteValue(fields[0].value, vars));
      SubstituteFields(fields[1..], vars, Insert(rendered, f))
  }

  method SubstituteTree(value: Json, variables: seq<Field>, display: Json -> string) returns (result: Json)
    ensures result == SubstituteValue(value, Bindings(variables, display))
    decreases value
  {
    ghost var vars := Bindings(variables, display);
    match value {
      case Str(s) =>
        var text := SubstituteString(s, variables, display);
        result := Str(text);
      case Arr(items) =>
        var rendered: seq<Json> := [];
        for i := 0 to |items|
          invariant rendered + SubstituteItems(items[i..], vars) == SubstituteItems(items, vars)
        {
          var item := SubstituteTree(items[i], variables, display);
          rendered := rendered + [item];
          assert items[i..][1..] == items[i + 1..];
        }
        result := Arr(rendered);
      case Obj(fields) =>
        var rendered: seq<Field> := [];
        for i := 0 to |fields|
          invariant SubstituteFields(fields[i..], vars, rendered) == SubstituteFields(fields, vars, [])
        {
          var key := SubstituteString(fields[i].key, variables, display);
          var val := SubstituteTree(fields[i].value, variables, display);
          rendered := Insert(rendered, Field(key, val));
          assert fields[i..][1..] == fields[i + 1..];
        }
        result := Obj(rendered);
      case _ =>
        result := value;
    }
  }

  method SubstituteVariables(template: Json, variables: Json, display: Json -> string) returns (r: Outcome)
    ensures r == if variables.Obj?
                 then Rendered(SubstituteValue(template, Bindings(variables.fields, display)))
                 else SubstitutionFailed
  {
    match variables {
      case Obj(fields) =>
        var value := SubstituteTree(template, fields, display);
        r := Rendered(value);
      case _ =>
        r := SubstitutionFailed;
    }
  }

  // ---- replacement, by occurrences ----

  predicate OccursAt(s: string, p: string, i: nat) {
    i + |p| <= |s| && s[i..i + |p|] == p
  }

  lemma TailOccurs(s: string, p: string, j: nat)
    requires s != ""
    ensures OccursAt(s[1..], p, j) <==> OccursAt(s, p, j + 1)
  {
    if j + |p| <= |s| - 1 {
      assert s[1..][j..j + |p|] == s[j + 1..j + 1 + |p|];
    }
  }

  lemma NotAtStart(s: string, p: string)
    requires !OccursAt(s, p, 0)
    ensures !(p <= s)
  {
  }

  /** A text without the pattern stays as it is. */
  lemma {:induction false} ReplaceNowhere(s: string, p: string, text: string)
    requires p != "" && forall j: nat :: !OccursAt(s, p, j)
    ensures Replace(s, p, text) == s
    decreases |s|
  {
    if |s| >= |p| {
      forall j: nat
        ensures !OccursAt(s[1..], p, j)
      {
        TailOccurs(s, p, j);
      }
      NotAtStart(s, p);
      ReplaceStep(s, p, text);
      ReplaceNowhere(s[1..], p, text);
    }
  }

  /** What comes before the first occurrence is kept. */
  lemma {:induction false} ReplaceSkips(before: string, rest: string, p: string, text: string)
    requires p != "" && forall j: nat :: j < |before| ==> !OccursAt(before + rest, p, j)
    ensures Replace(before + rest, p, text) == before + Replace(rest, p, text)
  {
    if before == "" {
      assert before + rest == rest;
    } else {
      assert (before + rest)[1..] == before[1..] + rest;
      forall j: nat | j < |before| - 1
        ensures !OccursAt(before[1..] + rest, p, j)
      {
        TailOccurs(before + rest, p, j);
      }
      ReplaceSkips(before[1..], rest, p, text);
      NotAtStart(before + rest, p);
      SkipFirst(before, rest, p, text);
    }
  }

  /** A text with the pattern changes at its first occurrence, and goes on after it. */
  lemma ReplaceAtFirst(before: string, rest: string, p: string, text: string)
    requires p != "" && forall j: nat :: j < |before| ==> !OccursAt(before + (p + rest), p, j)
    ensures Replace(before + (p + rest), p, text) == before + (text + Replace(rest, p, text))
  {
    ReplaceSkips(before, p + rest, p, text);
    ReplaceMatch(p, rest, text);
  }

  /** What a placeholder alone becomes, for each kind of value. */
  lemma OneHole(name: string, value: Json, display: Json -> string)
    ensures var text := SubstituteText("{{" + name + "}}", Bindings([Field(name, value)], display));
      && (value.Str? ==> text == value.s)
      && (value.Number? ==> text == value.text)
      && (value == Bool(true) ==> text == "true") && (value == Bool(false) ==> text == "false")
      && (value == Null ==> text == "")
      && (value.Arr? || value.Obj? ==> text == display(value))
  {
    var vars := Bindings([Field(name, value)], display);
    assert vars == [Binding(name, Replacement(value, display))] && vars[1..] == [];
    ReplaceMatch(Placeholder(name), "", Replacement(value, display));
    assert Placeholder(name) + "" == "{{" + name + "}}" == Placeholder(name);
    assert Replace("", Placeholder(name), Replacement(value, display)) == "";
  }

  // ---- the structural meaning of a template ----

  datatype Segment = Lit(text: string) | Hole(name: string)

  function Flatten(segments: seq<Segment>): string {
    if segments == [] then ""
    else (match segments[0] case Lit(text) => text case Hole(name) => Placeholder(name)) + Flatten(segments[1..])
  }

  function FillOne(s: Segment, m: map<string, string>): Segment {
    match s
    case Hole(name) => if name in m then Lit(m[name]) else s
    case Lit(_) => s
  }

  function Fill(segments: seq<Segment>, m: map<string, string>): seq<Segment> {
    seq(|segments|, i requires 0 <= i < |segments| => FillOne(segments[i], m))
  }

  predicate BraceFree(s: string) {
    '{' !in s && '}' !in s
  }

  /** Where the name after a `{{` that ends before `i` stops: the first brace at or after `i`. */
  function NameEnd(s: string, i: nat): (j: nat)
    requires i <= |s|
    ensures i <= j <= |s| && BraceFree(s[i..j])
    ensures j < |s| ==> s[j] == '{' || s[j] == '}'
    decreases |s| - i
  {
    if i == |s| || s[i] == '{' || s[i] == '}' then i
    else
      var j := NameEnd(s, i + 1);
      assert s[i..j] == [s[i]] + s[i + 1..j];
      j
  }

  /** At `i` the string opens a `{{name}}` with `least` characters or more in its name, or reaches its end
      before one can be ruled out. */
  predicate OpensPlaceholder(s: string, i: nat, least: nat)
    requires i < |s|
  {
    s[i] == '{' &&
    (i + 1 == |s| ||
     (s[i + 1] == '{' &&
      var j := NameEnd(s, i + 2);
      j == |s| || (j - (i + 2) >= least && s[j] == '}' && (j + 1 == |s| || s[j + 1] == '}'))))
  }

  /** No placeholder with `least` characters or more in its name starts inside the string, whatever text
      comes after it. */
  predicate Inert(s: string, least: nat := 0) {
    forall i :: 0 <= i < |s| ==> !OpensPlaceholder(s, i, least)
  }

  predicate WellFormed(segments: seq<Segment>, least: nat := 0) {
    forall i :: 0 <= i < |segments| ==>
      match segments[i] case Lit(text) => Inert(text, least) case Hole(name) => BraceFree(name)
  }

  /** `vars` visits the entries of `m`, each exactly once, in some order. */
  predicate Visits(vars: seq<Binding>, m: map<string, string>) {
    && (forall i :: 0 <= i < |vars| ==> vars[i].name in m && m[vars[i].name] == vars[i].text)
    && (forall i, j :: 0 <= i < j < |vars| ==> vars[i].name != vars[j].name)
    && (forall n :: n in m ==> exists i :: 0 <= i < |vars| && vars[i].name == n)
  }

  /** As a JSON map lists its entries. */
  predicate InKeyOrder(vars: seq<Binding>) {
    forall i, j :: 0 <= i < j < |vars| ==> Less(vars[i].name, vars[j].name)
  }

  /** The variables are named without braces and, but for the text `v`, their texts open no placeholder that
      has a name. */
  predicate InertBut(m: map<string, string>, v: string) {
    forall n :: n in m ==> BraceFree(n) && (m[n] == v || Inert(m[n], 1))
  }

  // ---- replacing one variable ----

  lemma NameEndShift(s: string, i: nat)
    requires 1 <= i <= |s|
    ensures NameEnd(s, i) == NameEnd(s[1..], i - 1) + 1
    decreases |s| - i
  {
    if i < |s| && s[i] != '{' && s[i] != '}' {
      NameEndShift(s, i + 1);
    }
  }

  lemma InertTail(s: string, least: nat)
    requires s != "" && Inert(s, least)
    ensures Inert(s[1..], least)
  {
    forall i | 0 <= i < |s| - 1
      ensures !OpensPlaceholder(s[1..], i, least)
    {
      assert !OpensPlaceholder(s, i + 1, least);
      if i + 3 <= |s| {
        NameEndShift(s, i + 3);
      }
    }
  }

  /** A placeholder at the start of `text + rest` shows already in `text`. */
  lemma MatchOpens(text: string, rest: string, name: string)
    requires text != "" && BraceFree(name)
    requires Placeholder(name) <= text + rest
    ensures OpensPlaceholder(text, 0, |name|)
  {
    var p := Placeholder(name);
    var s := text + rest;
    assert p[0] == '{' && p[1] == '{' && p[|p| - 2] == '}' && p[|p| - 1] == '}';
    assert forall i :: 0 <= i < |p| ==> s[i] == p[i];
    if |text| >= 2 {
      var j := NameEnd(text, 2);
      assert text[0] == s[0] && text[1] == s[1];
      if j < |text| {
        assert forall i :: 2 <= i < |p| - 2 ==> s[i] == p[i] == name[i - 2];
        assert forall i :: 2 <= i < j ==> s[i] == text[2..j][i - 2];
        assert s[j] == text[j] && s[|p| - 2] == '}';
        assert j == |p| - 2;
      }
    }
  }

  /** Where the pattern does not match, replacement moves on by one character. */
  lemma ReplaceStep(s: string, pattern: string, text: string)
    requires pattern != "" && s != "" && !(pattern <= s)
    ensures Replace(s, pattern, text) == [s[0]] + Replace(s[1..], pattern, text)
  {
    if |s| < |pattern| {
      assert Replace(s[1..], pattern, text) == s[1..];
    }
  }

  lemma ReplaceMatch(pattern: string, rest: string, text: string)
    requires pattern != ""
    ensures Replace(pattern + rest, pattern, text) == text + Replace(rest, pattern, text)
  {
    assert (pattern + rest)[..|pattern|] == pattern && (pattern + rest)[|pattern|..] == rest;
  }

  /** What is skipped after the first character is skipped with it. */
  lemma SkipFirst(lit: string, rest: string, pattern: string, text: string)
    requires pattern != "" && lit != "" && !(pattern <= lit + rest)
    requires Replace(lit[1..] + rest, pattern, text) == lit[1..] + Replace(rest, pattern, text)
    ensures Replace(lit + rest, pattern, text) == lit + Replace(rest, pattern, text)
  {
    ReplaceStep(lit + rest, pattern, text);
    assert (lit + rest)[1..] == lit[1..] + rest;
    assert [lit[0]] + (lit[1..] + Replace(rest, pattern, text)) == lit + Replace(rest, pattern, text);
  }

  lemma InertDoesNotMatch(lit: string, rest: string, name: string, least: nat)
    requires lit != "" && Inert(lit, least) && BraceFree(name) && |name| >= least
    ensures !(Placeholder(name) <= lit + rest)
  {
    assert !OpensPlaceholder(lit, 0, least);
    if Placeholder(name) <= lit + rest {
      MatchOpens(lit, rest, name);
    }
  }

  lemma {:induction false} ReplaceSkipsInert(lit: string, rest: string, name: string, text: string, least: nat)
    requires Inert(lit, least) && BraceFree(name) && |name| >= least
    ensures Replace(lit + rest, Placeholder(name), text) == lit + Replace(rest, Placeholder(name), text)
  {
    if lit == "" {
      assert lit + rest == rest;
    } else {
      InertTail(lit, least);
      ReplaceSkipsInert(lit[1..], rest, name, text, least);
      InertDoesNotMatch(lit, rest, name, least);
      SkipFirst(lit, rest, Placeholder(name), text);
    }
  }

  lemma PlaceholderTailInert(name: string)
    requires BraceFree(name)
    ensures Inert(Placeholder(name)[1..])
  {
    var t := Placeholder(name)[1..];
    assert t == "{" + name + "}}";
    assert |t| >= 2 && t[1] != '{';
  }

  lemma PlaceholderPrefix(a: string, b: string, rest: string)
    requires BraceFree(a) && BraceFree(b)
    requires Placeholder(a) <= Placeholder(b) + rest
    ensures a == b
  {
    var p, q := Placeholder(a), Placeholder(b);
    var s := q + rest;
    assert forall i :: 0 <= i < |a| ==> s[i + 2] == p[i + 2] == a[i];
    assert forall i :: 0 <= i < |b| ==> s[i + 2] == q[i + 2] == b[i];
    assert s[|a| + 2] == p[|a| + 2] == '}';
    assert s[|b| + 2] == q[|b| + 2] == '}';
  }

  lemma ReplaceAtHole(n: string, rest: string, name: string, text: string)
    requires BraceFree(n) && BraceFree(name)
    ensures Replace(Placeholder(n) + rest, Placeholder(name), text)
         == (if n == name then text else Placeholder(n)) + Replace(rest, Placeholder(name), text)
  {
    if n == name {
      ReplaceMatch(Placeholder(name), rest, text);
    } else {
      PlaceholderTailInert(n);
      ReplaceSkipsInert(Placeholder(n)[1..], rest, name, text, 0);
      OtherHoleDoesNotMatch(n, rest, name);
      SkipFirst(Placeholder(n), rest, Placeholder(name), text);
    }
  }

  lemma OtherHoleDoesNotMatch(n: string, rest: string, name: string)
    requires BraceFree(n) && BraceFree(name) && n != name
    ensures !(Placeholder(name) <= Placeholder(n) + rest)
  {
    if Placeholder(name) <= Placeholder(n) + rest {
      PlaceholderPrefix(name, n, rest);
    }
  }

  lemma {:induction false} ReplaceFillsOne(segments: seq<Segment>, name: string, text: string, least: nat)
    requires WellFormed(segments, least) && BraceFree(name) && |name| >= least
    ensures Replace(Flatten(segments), Placeholder(name), text) == Flatten(Fill(segments, map[name := text]))
  {
    var p, m := Placeholder(name), map[name := text];
    if segments != [] {
      var rest := Flatten(segments[1..]);
      ReplaceFillsOne(segments[1..], name, text, least);
      assert Fill(segments, m)[1..] == Fill(segments[1..], m);
      match segments[0] {
        case Lit(t) =>
          ReplaceSkipsInert(t, rest, name, text, least);
        case Hole(n) =>
          ReplaceAtHole(n, rest, name, text);
      }
    }
  }

  // ---- the whole loop ----

  /** In any order, if names have `least` characters or more and texts are inert against such names. */
  lemma {:induction false} SubstituteFills(
    segments: seq<Segment>, vars: seq<Binding>, m: map<string, string>, least: nat)
    requires WellFormed(segments, least) && Visits(vars, m)
    requires forall n :: n in m ==> BraceFree(n) && |n| >= least && Inert(m[n], least)
    ensures SubstituteText(Flatten(segments), vars) == Flatten(Fill(segments, m))
    ensures WellFormed(Fill(segments, m), least)
    decreases |vars|
  {
    if vars == [] {
      assert m == map[];
      assert Fill(segments, m) == segments;
    } else {
      var n, text := vars[0].name, vars[0].text;
      var one, m' := map[n := text], m - {n};
      ReplaceFillsOne(segments, n, text, least);
      VisitsRest(vars, m);
      FillKeepsWellFormed(segments, one, least);
      SubstituteFills(Fill(segments, one), vars[1..], m', least);
      FillOneThenRest(segments, m, n);
    }
  }

  lemma VisitsRest(vars: seq<Binding>, m: map<string, string>)
    requires vars != [] && Visits(vars, m)
    ensures Visits(vars[1..], m - {vars[0].name})
  {
    forall k | k in m && k != vars[0].name
      ensures exists i :: 0 <= i < |vars[1..]| && vars[1..][i].name == k
    {
      var i :| 0 <= i < |vars| && vars[i].name == k;
      assert vars[1..][i - 1].name == k;
    }
  }

  lemma FillKeepsWellFormed(segments: seq<Segment>, m: map<string, string>, least: nat)
    requires WellFormed(segments, least) && forall n :: n in m ==> Inert(m[n], least)
    ensures WellFormed(Fill(segments, m), least)
  {
    forall i | 0 <= i < |segments|
      ensures match Fill(segments, m)[i] case Lit(text) => Inert(text, least) case Hole(name) => BraceFree(name)
    {
      assert Fill(segments, m)[i] == FillOne(segments[i], m);
    }
  }

  lemma FillOneThenRest(segments: seq<Segment>, m: map<string, string>, n: string)
    requires n in m
    ensures Fill(Fill(segments, map[n := m[n]]), m - {n}) == Fill(segments, m)
  {
  }

  lemma FillTwice(segments: seq<Segment>, m: map<string, string>)
    ensures Fill(Fill(segments, m), m) == Fill(segments, m)
  {
  }

  lemma InertAgainstLonger(s: string)
    requires Inert(s)
    ensures Inert(s, 1)
  {
    forall i | 0 <= i < |s|
      ensures !OpensPlaceholder(s, i, 1)
    {
      assert !OpensPlaceholder(s, i, 0);
    }
  }

  lemma WellFormedAgainstLonger(segments: seq<Segment>)
    requires WellFormed(segments)
    ensures WellFormed(segments, 1)
  {
    forall i | 0 <= i < |segments| && segments[i].Lit?
      ensures Inert(segments[i].text, 1)
    {
      InertAgainstLonger(segments[i].text);
    }
  }

  /** In key order the variable without a name comes first, so placeholders without a name are harmless in
      variable texts. */
  lemma KeyOrderFills(segments: seq<Segment>, vars: seq<Binding>, m: map<string, string>)
    requires WellFormed(segments) && Visits(vars, m) && InKeyOrder(vars)
    requires forall n :: n in m ==> BraceFree(n) && Inert(m[n], 1)
    ensures SubstituteText(Flatten(segments), vars) == Flatten(Fill(segments, m))
  {
    WellFormedAgainstLonger(segments);
    LaterNamesNonempty(vars, m);
    if vars == [] || vars[0].name != "" {
      SubstituteFills(segments, vars, m, 1);
    } else {
      var text := vars[0].text;
      ReplaceFillsOne(segments, "", text, 0);
      FillKeepsWellFormed(segments, map["" := text], 1);
      VisitsRest(vars, m);
      SubstituteFills(Fill(segments, map["" := text]), vars[1..], m - {""}, 1);
      FillOneThenRest(segments, m, "");
    }
  }

  lemma LaterNamesNonempty(vars: seq<Binding>, m: map<string, string>)
    requires Visits(vars, m) && InKeyOrder(vars)
    ensures vars == [] ==> m == map[]
    ensures forall n :: vars != [] && n in m && n != vars[0].name ==> |n| >= 1
  {
    forall n | vars != [] && n in m && n != vars[0].name
      ensures |n| >= 1
    {
      var i :| 0 <= i < |vars| && vars[i].name == n;
      assert Less(vars[0].name, vars[i].name);
    }
  }

  /** A text that the loop handles exactly as filling holes does, whatever the template and the other
      variables; the map is visited in key order. */
  ghost predicate FilledExactly(v: string) {
    forall segments, vars, m ::
      WellFormed(segments) && Visits(vars, m) && InKeyOrder(vars) && InertBut(m, v) ==>
      SubstituteText(Flatten(segments), vars) == Flatten(Fill(segments, m))
  }

  lemma {:induction false} ReplaceByNothingShrinks(s: string, p: string, i: nat)
    requires p != ""
    ensures |Replace(s, p, "")| <= |s|
    ensures i + |p| <= |s| && s[i..i + |p|] == p ==> |Replace(s, p, "")| < |s|
    decreases |s|
  {
    if |s| >= |p| {
      if s[..|p|] == p {
        ReplaceByNothingShrinks(s[|p|..], p, 0);
      } else if i == 0 {
        ReplaceByNothingShrinks(s[1..], p, 0);
      } else {
        ReplaceByNothingShrinks(s[1..], p, i - 1);
        if i + |p| <= |s| {
          assert s[1..][i - 1..i - 1 + |p|] == s[i..i + |p|];
        }
      }
    }
  }

  /** When `v + tail` contains a placeholder with a name, `tail` after a nameless hole holding `v` is a
      template that goes wrong. */
  lemma CompletionBreaks(v: string, tail: string, name: string, i: nat)
    requires BraceFree(name) && name != "" && Inert(tail)
    requires i + |Placeholder(name)| <= |v + tail|
    requires (v + tail)[i..i + |Placeholder(name)|] == Placeholder(name)
    ensures !FilledExactly(v)
  {
    var segments := [Hole(""), Lit(tail)];
    var vars := [Binding("", v), Binding(name, "")];
    var m := map["" := v, name := ""];
    assert vars[0].name == "" && vars[1].name == name;
    assert Visits(vars, m) && InKeyOrder(vars);
    EmptyTextInert(v, name);
    assert WellFormed(segments);
    NamelessHoleFilled(v, tail);
    assert Fill(segments, m) == [Lit(v), Lit(tail)];
    assert vars[1..] == [Binding(name, "")] && vars[1..][1..] == [];
    assert SubstituteText(v + tail, vars[1..]) == Replace(v + tail, Placeholder(name), "");
    assert SubstituteText(Flatten(segments), vars) == Replace(v + tail, Placeholder(name), "");
    ReplaceByNothingShrinks(v + tail, Placeholder(name), i);
  }

  lemma EmptyTextInert(v: string, name: string)
    requires BraceFree(name) && name != ""
    ensures InertBut(map["" := v, name := ""], v)
  {
    assert Inert("", 1);
  }

  lemma NamelessHoleFilled(v: string, tail: string)
    requires Inert(tail)
    ensures Flatten([Lit(v), Lit(tail)]) == v + tail
    ensures Replace(Flatten([Hole(""), Lit(tail)]), Placeholder(""), v) == v + tail
  {
    var segments := [Hole(""), Lit(tail)];
    ReplaceFillsOne(segments, "", v, 0);
    var filled := Fill(segments, map["" := v]);
    assert filled == [Lit(v), Lit(tail)];
    assert filled[1..] == [Lit(tail)] && [Lit(tail)][1..] == [];
    assert Flatten([Lit(tail)]) == tail + Flatten([]) == tail;
  }

  lemma Completed(v: string, tail: string, i: nat, j: nat)
    requires i + 2 <= j <= |v| && j + 2 <= |v + tail|
    requires v[i] == v[i + 1] == '{' && (v + tail)[j] == (v + tail)[j + 1] == '}'
    ensures (v + tail)[i..j + 2] == Placeholder(v[i + 2..j])
  {
    var w := v + tail;
    assert w[i..i + 2] == "{{" && w[j..j + 2] == "}}";
    assert w[i + 2..j] == v[i + 2..j];
    assert w[i..j + 2] == w[i..i + 2] + w[i + 2..j] + w[j..j + 2];
  }

  lemma OpeningBreaks(v: string, i: nat)
    requires i < |v| && OpensPlaceholder(v, i, 1)
    ensures !FilledExactly(v)
  {
    if i + 1 == |v| {
      assert (v + "{n}}")[i..i + 5] == Placeholder("n");
      CompletionBreaks(v, "{n}}", "n", i);
    } else {
      var j := NameEnd(v, i + 2);
      if j == |v| {
        var w := v + "n";
        assert w[i + 2..|w|] == v[i + 2..j] + "n";
        Completed(w, "}}", i, |w|);
        assert w + "}}" == v + "n}}";
        CompletionBreaks(v, "n}}", v[i + 2..j] + "n", i);
      } else {
        var tail := if j + 1 == |v| then "}" else "";
        Completed(v, tail, i, j);
        CompletionBreaks(v, tail, v[i + 2..j], i);
      }
    }
  }

  /** The loop fills the holes exactly when no variable text opens a placeholder that has a name. */
  lemma FilledExactlyWhenInert(v: string)
    ensures FilledExactly(v) <==> Inert(v, 1)
  {
    if Inert(v, 1) {
      forall segments, vars, m | WellFormed(segments) && Visits(vars, m) && InKeyOrder(vars) && InertBut(m, v)
        ensures SubstituteText(Flatten(segments), vars) == Flatten(Fill(segments, m))
      {
        KeyOrderFills(segments, vars, m);
      }
    } else {
      var i :| 0 <= i < |v| && OpensPlaceholder(v, i, 1);
      OpeningBreaks(v, i);
    }
  }

  // ---- trees ----

  predicate Increasing(fields: seq<Field>) {
    forall i, j :: 0 <= i < j < |fields| ==> Less(fields[i].key, fields[j].key)
  }

  /** Every object lists its keys in order and without repetition, as a JSON map does. */
  predicate Ordered(value: Json) {
    match value
    case Arr(items) => forall i :: 0 <= i < |items| ==> Ordered(items[i])
    case Obj(fields) => Increasing(fields) && forall i :: 0 <= i < |fields| ==> Ordered(fields[i].value)
    case _ => true
  }

  /** A string made of inert literals and `{{name}}` holes. */
  ghost predicate IsTemplate(s: string) {
    exists segments :: WellFormed(segments) && Flatten(segments) == s
  }

  ghost predicate TemplateTree(value: Json) {
    match value
    case Str(s) => IsTemplate(s)
    case Arr(items) => forall i :: 0 <= i < |items| ==> TemplateTree(items[i])
    case Obj(fields) => forall i :: 0 <= i < |fields| ==> IsTemplate(fields[i].key) && TemplateTree(fields[i].value)
    case _ => true
  }

  /** The last entry whose key renders to `k`: the one that wins when rendered keys collide. */
  function LastRendering(fields: seq<Field>, vars: seq<Binding>, k: string): (i: int)
    ensures -1 <= i < |fields|
    ensures i >= 0 ==> SubstituteText(fields[i].key, vars) == k
    ensures forall j :: i < j < |fields| ==> SubstituteText(fields[j].key, vars) != k
  {
    if fields == [] then -1
    else if SubstituteText(fields[|fields| - 1].key, vars) == k then |fields| - 1
    else LastRendering(fields[..|fields| - 1], vars, k)
  }

  lemma {:induction false} InsertOrdered(fields: seq<Field>, f: Field)
    requires Increasing(fields)
    ensures Increasing(Insert(fields, f))
    ensures forall g :: g in Insert(fields, f) <==> g == f || (g in fields && g.key != f.key)
  {
    if fields != [] {
      LessTrichotomy(f.key, fields[0].key);
      if Less(f.key, fields[0].key) {
        forall i | 1 <= i < |fields|
          ensures Less(f.key, fields[i].key)
        {
          LessTransitive(f.key, fields[0].key, fields[i].key);
        }
        forall i | 0 <= i < |fields|
          ensures fields[i].key != f.key
        {
          LessTrichotomy(f.key, fields[i].key);
        }
      } else {
        InsertOrdered(fields[1..], f);
        assert fields == [fields[0]] + fields[1..];
        forall i | 1 <= i < |fields|
          ensures fields[i].key != fields[0].key
        {
          LessTrichotomy(fields[0].key, fields[i].key);
        }
        if fields[0].key != f.key {
          var ins := Insert(fields[1..], f);
          forall i | 0 <= i < |ins|
            ensures Less(fields[0].key, ins[i].key)
          {
            assert ins[i] in ins;
          }
        }
      }
    }
  }

  lemma {:induction false} FieldsSnoc(fields: seq<Field>, f: Field, vars: seq<Binding>, rendered: seq<Field>)
    ensures SubstituteFields(fields + [f], vars, rendered)
         == Insert(SubstituteFields(fields, vars, rendered),
                   Field(SubstituteText(f.key, vars), SubstituteValue(f.value, vars)))
    decreases |fields|
  {
    if fields == [] {
      assert fields + [f] == [f] && [f][1..] == [];
    } else {
      assert (fields + [f])[1..] == fields[1..] + [f];
      var g := Field(SubstituteText(fields[0].key, vars), SubstituteValue(fields[0].value, vars));
      FieldsSnoc(fields[1..], f, vars, Insert(rendered, g));
    }
  }

  /** A rendered object holds, in key order, exactly one entry for each rendered key, and it is the one
      written last. */
  lemma {:induction false} ObjectRendering(fields: seq<Field>, vars: seq<Binding>)
    ensures Increasing(SubstituteFields(fields, vars, []))
    ensures forall g :: g in SubstituteFields(fields, vars, []) <==>
      var i := LastRendering(fields, vars, g.key);
      i >= 0 && g.value == SubstituteValue(fields[i].value, vars)
    decreases |fields|
  {
    if fields != [] {
      var n := |fields| - 1;
      var init, f := fields[..n], fields[n];
      assert fields == init + [f];
      ObjectRendering(init, vars);
      FieldsSnoc(init, f, vars, []);
      var r := Field(SubstituteText(f.key, vars), SubstituteValue(f.value, vars));
      InsertOrdered(SubstituteFields(init, vars, []), r);
      forall g: Field
        ensures g in SubstituteFields(fields, vars, []) <==>
          var i := LastRendering(fields, vars, g.key);
          i >= 0 && g.value == SubstituteValue(fields[i].value, vars)
      {
        if g.key != r.key {
          var i := LastRendering(init, vars, g.key);
          assert LastRendering(fields, vars, g.key) == i;
          assert i >= 0 ==> fields[i] == init[i];
        }
      }
    }
  }

  /** Substitution leaves every string of the tree as it is. */
  predicate Settled(value: Json, vars: seq<Binding>) {
    match value
    case Str(s) => SubstituteText(s, vars) == s
    case Arr(items) => forall i :: 0 <= i < |items| ==> Settled(items[i], vars)
    case Obj(fields) =>
      forall i :: 0 <= i < |fields| ==>
        SubstituteText(fields[i].key, vars) == fields[i].key && Settled(fields[i].value, vars)
    case _ => true
  }

  lemma {:induction false} InsertLast(fields: seq<Field>, f: Field)
    requires Increasing(fields + [f])
    ensures Insert(fields, f) == fields + [f]
  {
    if fields != [] {
      var all := fields + [f];
      assert Less(all[0].key, all[|fields|].key);
      LessTrichotomy(fields[0].key, f.key);
      assert all[1..] == fields[1..] + [f];
      InsertLast(fields[1..], f);
      assert fields == [fields[0]] + fields[1..];
    }
  }

  lemma {:induction false} ItemsPointwise(items: seq<Json>, vars: seq<Binding>)
    ensures |SubstituteItems(items, vars)| == |items|
    ensures forall i :: 0 <= i < |items| ==> SubstituteItems(items, vars)[i] == SubstituteValue(items[i], vars)
    decreases |items|
  {
    if items != [] {
      ItemsPointwise(items[1..], vars);
    }
  }

  /** A settled tree whose objects are in key order renders to itself. */
  lemma {:induction false} SettledIsFixed(value: Json, vars: seq<Binding>)
    requires Ordered(value) && Settled(value, vars)
    ensures SubstituteValue(value, vars) == value
    decreases value
  {
    match value {
      case Arr(items) =>
        ItemsPointwise(items, vars);
        forall i | 0 <= i < |items| ensures SubstituteItems(items, vars)[i] == items[i] {
          SettledIsFixed(items[i], vars);
        }
        assert SubstituteItems(items, vars) == items;
      case Obj(fields) =>
        for k := 0 to |fields|
          invariant SubstituteFields(fields[..k], vars, []) == fields[..k]
        {
          SettledIsFixed(fields[k].value, vars);
          FieldsSnoc(fields[..k], fields[k], vars, []);
          assert fields[..k + 1] == fields[..k] + [fields[k]];
          InsertLast(fields[..k], fields[k]);
        }
        assert fields[..|fields|] == fields;
      case _ =>
    }
  }

  lemma {:induction false} RenderingOrdered(value: Json, vars: seq<Binding>)
    ensures Ordered(SubstituteValue(value, vars))
    decreases value
  {
    match value {
      case Arr(items) =>
        ItemsPointwise(items, vars);
        forall i | 0 <= i < |items| ensures Ordered(SubstituteItems(items, vars)[i]) {
          RenderingOrdered(items[i], vars);
        }
      case Obj(fields) =>
        ObjectRendering(fields, vars);
        var r := SubstituteFields(fields, vars, []);
        forall i | 0 <= i < |r| ensures Ordered(r[i].value) {
          assert r[i] in r;
          RenderingOrdered(fields[LastRendering(fields, vars, r[i].key)].value, vars);
        }
      case _ =>
    }
  }

  /** The variables under which the loop is known to fill holes. */
  predicate Usable(vars: seq<Binding>, m: map<string, string>) {
    Visits(vars, m) && forall n :: n in m ==> BraceFree(n) && Inert(m[n])
  }

  lemma TextSettles(s: string, vars: seq<Binding>, m: map<string, string>)
    requires IsTemplate(s) && Usable(vars, m)
    ensures SubstituteText(SubstituteText(s, vars), vars) == SubstituteText(s, vars)
  {
    var segments :| WellFormed(segments) && Flatten(segments) == s;
    SubstituteFills(segments, vars, m, 0);
    SubstituteFills(Fill(segments, m), vars, m, 0);
    FillTwice(segments, m);
  }

  lemma {:induction false} RenderingSettles(value: Json, vars: seq<Binding>, m: map<string, string>)
    requires TemplateTree(value) && Usable(vars, m)
    ensures Settled(SubstituteValue(value, vars), vars)
    decreases value
  {
    match value {
      case Str(s) =>
        TextSettles(s, vars, m);
      case Arr(items) =>
        ItemsPointwise(items, vars);
        forall i | 0 <= i < |items| ensures Settled(SubstituteItems(items, vars)[i], vars) {
          RenderingSettles(items[i], vars, m);
        }
      case Obj(fields) =>
        ObjectRendering(fields, vars);
        var r := SubstituteFields(fields, vars, []);
        forall k | 0 <= k < |r|
          ensures SubstituteText(r[k].key, vars) == r[k].key && Settled(r[k].value, vars)
        {
          assert r[k] in r;
          var i := LastRendering(fields, vars, r[k].key);
          TextSettles(fields[i].key, vars, m);
          RenderingSettles(fields[i].value, vars, m);
        }
      case _ =>
    }
  }

  /** Rendering a rendered tree again changes nothing. */
  lemma RenderingIdempotent(value: Json, vars: seq<Binding>, m: map<string, string>)
    requires TemplateTree(value) && Usable(vars, m)
    ensures SubstituteValue(SubstituteValue(value, vars), vars) == SubstituteValue(value, vars)
  {
    RenderingOrdered(value, vars);
    RenderingSettles(value, vars, m);
    SettledIsFixed(SubstituteValue(value, vars), vars);
  }

  /** With no variables every JSON tree, template or not, renders to itself. */
  lemma {:induction false} NoVariablesSettled(value: Json)
    ensures Settled(value, [])
    decreases value
  {
    match value {
      case Arr(items) =>
        forall i | 0 <= i < |items| ensures Settled(items[i], []) { NoVariablesSettled(items[i]); }
      case Obj(fields) =>
        forall i | 0 <= i < |fields| ensures Settled(fields[i].value, []) { NoVariablesSettled(fields[i].value); }
      case _ =>
    }
  }

  /** Whatever the variables, all but strings, arrays and objects stay as they are. */
  lemma ScalarsStay(value: Json, vars: seq<Binding>)
    ensures value.Null? || value.Bool? || value.Number? ==> SubstituteValue(value, vars) == value
    ensures value.Str? ==> SubstituteValue(value, vars) == Str(SubstituteText(value.s, vars))
  {
  }

  lemma NoVariablesIdentity(value: Json)
    requires Ordered(value)
    ensures SubstituteValue(value, []) == value
  {
    NoVariablesSettled(value);
    SettledIsFixed(value, []);
  }

  /** The order in which the variables are visited does not show in any rendered tree. */
  lemma {:induction false} VisitOrderUnobservable(
    value: Json, vars: seq<Binding>, vars': seq<Binding>, m: map<string, string>)
    requires TemplateTree(value) && Usable(vars, m) && Visits(vars', m)
    ensures SubstituteValue(value, vars) == SubstituteValue(value, vars')
    decreases value
  {
    match value {
      case Str(s) =>
        TextOrder(s, vars, vars', m);
      case Arr(items) =>
        ItemsPointwise(items, vars);
        ItemsPointwise(items, vars');
        forall i | 0 <= i < |items|
          ensures SubstituteItems(items, vars)[i] == SubstituteItems(items, vars')[i]
        {
          VisitOrderUnobservable(items[i], vars, vars', m);
        }
        assert SubstituteItems(items, vars) == SubstituteItems(items, vars');
      case Obj(fields) =>
        for k := 0 to |fields|
          invariant SubstituteFields(fields[..k], vars, []) == SubstituteFields(fields[..k], vars', [])
        {
          TextOrder(fields[k].key, vars, vars', m);
          VisitOrderUnobservable(fields[k].value, vars, vars', m);
          OneMoreField(fields, k, vars, vars');
        }
        assert fields[..|fields|] == fields;
      case _ =>
    }
  }

  lemma OneMoreField(fields: seq<Field>, k: nat, vars: seq<Binding>, vars': seq<Binding>)
    requires k < |fields|
    requires SubstituteFields(fields[..k], vars, []) == SubstituteFields(fields[..k], vars', [])
    requires SubstituteText(fields[k].key, vars) == SubstituteText(fields[k].key, vars')
    requires SubstituteValue(fields[k].value, vars) == SubstituteValue(fields[k].value, vars')
    ensures SubstituteFields(fields[..k + 1], vars, []) == SubstituteFields(fields[..k + 1], vars', [])
  {
    FieldsSnoc(fields[..k], fields[k], vars, []);
    FieldsSnoc(fields[..k], fields[k], vars', []);
    assert fields[..k + 1] == fields[..k] + [fields[k]];
  }

  lemma TextOrder(s: string, vars: seq<Binding>, vars': seq<Binding>, m: map<string, string>)
    requires IsTemplate(s) && Usable(vars, m) && Visits(vars', m)
    ensures SubstituteText(s, vars) == SubstituteText(s, vars')
  {
    var segments :| WellFormed(segments) && Flatten(segments) == s;
    SubstituteFills(segments, vars, m, 0);
    SubstituteFills(segments, vars', m, 0);
  }
}
