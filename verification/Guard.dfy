/**
 The tenancy guard: a static analysis of database commands, and what it means for the documents they reach.

 The analysis reads a filter and says whether every path through it fixes the workspace. Its meaning is given
 by a semantics of filters over documents: a document that an accepted filter matches belongs to a workspace
 the filter names. That rests on the rules for `$and` and `$or`, and fails in two ways. The analysis takes any `$in`
 list that is not empty, and the server reads a regular expression in such a list as a pattern; and it treats `$nor`
 like `$or`. For filters without `$nor`, which of them are confined is decided exactly.
 */
module Guard {
  import opened Options

  datatype Field = Field(key: string, value: Json)

  datatype Json =
    | Null
    | Bool(truth: bool)
    | Num(number: int)
    | Str(text: string)
    /** A regular expression object, which a query can hold although JSON cannot. */
    | Pattern(source: string)
    | Arr(items: seq<Json>)
    | Obj(fields: seq<Field>)

  const TENANT_KEY := "workspaceId"
  const PLATFORM_MARKER := "salvations:platform"

  /** Where the object keeps the key. */
  function IndexOf(fields: seq<Field>, key: string): (i: Option<nat>)
    ensures i.Some? ==> i.value < |fields| && fields[i.value].key == key
    ensures i.None? ==> forall j :: 0 <= j < |fields| ==> fields[j].key != key
  {
    if fields == [] then None
    else if fields[0].key == key then Some(0)
    else
      match IndexOf(fields[1..], key)
      case None => None
      case Some(i) => Some(i + 1)
  }

  function Get(fields: seq<Field>, key: string): Option<Json> {
    match IndexOf(fields, key)
    case Some(i) => Some(fields[i].value)
    case None => None
  }

  predicate StartsWith(s: string, prefix: string) {
    |prefix| <= |s| && s[..|prefix|] == prefix
  }

  // ---- What a filter means ----

  /** A document of a tenant collection. */
  datatype Doc = Doc(workspaceId: string, rest: Json)

  /** The operators and fields that the analysis does not look at, with whatever meaning the server gives them. */
  datatype Semantics = Semantics(
    operator: (string, Json, string) -> bool, clause: (string, Json, Doc) -> bool, pattern: (string, string) -> bool)

  /** A pattern stands for every text it matches, where the server reads it as one. */
  ghost predicate PatternMatches(sem: Semantics, v: Json, workspace: string) {
    v.Pattern? && sem.pattern(v.source, workspace)
  }

  predicate IsOperatorObject(v: Json) {
    v.Obj? && v.fields != [] && StartsWith(v.fields[0].key, "$")
  }

  ghost predicate OperatorHolds(sem: Semantics, op: string, arg: Json, workspace: string) {
    if op == "$eq" then arg == Str(workspace)
    else if op == "$in" then arg.Arr? && ListHolds(sem, arg.items, workspace)
    else sem.operator(op, arg, workspace)
  }

  ghost predicate ListHolds(sem: Semantics, items: seq<Json>, workspace: string) {
    Str(workspace) in items || exists i :: 0 <= i < |items| && PatternMatches(sem, items[i], workspace)
  }

  ghost predicate ValueMatches(sem: Semantics, v: Json, workspace: string) {
    if IsOperatorObject(v) then
      forall i :: 0 <= i < |v.fields| ==> OperatorHolds(sem, v.fields[i].key, v.fields[i].value, workspace)
    else v == Str(workspace) || PatternMatches(sem, v, workspace)
  }

  ghost predicate Matches(sem: Semantics, filter: Json, doc: Doc)
    decreases filter
  {
    filter.Obj? && forall i :: 0 <= i < |filter.fields| ==> ClauseHolds(sem, filter.fields[i], doc)
  }

  ghost predicate ClauseHolds(sem: Semantics, f: Field, doc: Doc)
    decreases f
  {
    var v := f.value;
    if f.key == TENANT_KEY then ValueMatches(sem, v, doc.workspaceId)
    else if f.key == "$and" then v.Arr? && v.items != [] && forall i :: 0 <= i < |v.items| ==> Matches(sem, v.items[i], doc)
    else if f.key == "$or" then v.Arr? && exists i :: 0 <= i < |v.items| && Matches(sem, v.items[i], doc)
    else if f.key == "$nor" then v.Arr? && v.items != [] && forall i :: 0 <= i < |v.items| ==> !Matches(sem, v.items[i], doc)
    else sem.clause(f.key, v, doc)
  }

  // ---- The analysis ----

  /** `{ $exists: true }` and `{ $ne: null }` are not constraints: they match every tenant. Nor is a bare pattern. */
  predicate Narrows(v: Json) {
    if v.Pattern? then false
    else if !v.Obj? then true
    else
      && (IndexOf(v.fields, "$eq").Some? || IndexOf(v.fields, "$in").Some?)
      && (IndexOf(v.fields, "$in").Some? ==>
        (var list := v.fields[IndexOf(v.fields, "$in").value].value;
        list.Arr? && list.items != []))
  }

  predicate HasPattern(items: seq<Json>) {
    exists i :: 0 <= i < |items| && items[i].Pattern?
  }

  /** An equality, or a list with no pattern in it. */
  predicate PinsOperator(f: Field) {
    f.key == "$eq" || (f.key == "$in" && !(f.value.Arr? && HasPattern(f.value.items)))
  }

  /** The value can match no workspace but those it names. */
  predicate Pins(v: Json) {
    if v.Pattern? then false
    else if IsOperatorObject(v) then exists i :: 0 <= i < |v.fields| && PinsOperator(v.fields[i])
    else true
  }

  /** What the analysis gives credit for: a `$nor` of constrained branches, and a list with patterns in it. */
  datatype Rules = Rules(nor: bool, patterns: bool)

  const AS_WRITTEN := Rules(true, true)
  const STRICT := Rules(false, false)

  /** `filterConstrainsWorkspace` by the rules as written; by stricter rules, the same analysis giving less credit. */
  predicate Constrains(filter: Json, rules: Rules)
    decreases filter
  {
    filter.Obj? &&
    var fields := filter.fields;
    var own := IndexOf(fields, TENANT_KEY);
    if own.Some? then Narrows(fields[own.value].value) && (rules.patterns || Pins(fields[own.value].value))
    else
      var both := IndexOf(fields, "$and");
      var either := IndexOf(fields, "$or");
      var neither := IndexOf(fields, "$nor");
      || (both.Some? && SomeConstrains(fields[both.value].value, rules))
      || (either.Some? && AllConstrain(fields[either.value].value, rules))
      || (rules.nor && neither.Some? && AllConstrain(fields[neither.value].value, rules))
  }

  predicate SomeConstrains(branches: Json, rules: Rules)
    decreases branches, 0
  {
    branches.Arr? && exists i :: 0 <= i < |branches.items| && Constrains(branches.items[i], rules)
  }

  predicate AllConstrain(branches: Json, rules: Rules)
    decreases branches, 0
  {
    branches.Arr? && branches.items != [] && forall i :: 0 <= i < |branches.items| ==> Constrains(branches.items[i], rules)
  }

  predicate FilterConstrainsWorkspace(filter: Json) {
    Constrains(filter, AS_WRITTEN)
  }

  /** The workspaces a filter names: its own, or those of its `$and` and `$or` branches. */
  ghost predicate Names(filter: Json, workspace: string)
    decreases filter
  {
    filter.Obj? &&
    var own := IndexOf(filter.fields, TENANT_KEY);
    if own.Some? then NamesValue(filter.fields[own.value].value, workspace)
    else exists i :: 0 <= i < |filter.fields| && ClauseNames(filter.fields[i], workspace)
  }

  ghost predicate ClauseNames(f: Field, workspace: string)
    decreases f
  {
    (f.key == "$and" || f.key == "$or") && f.value.Arr? && exists j :: 0 <= j < |f.value.items| && Names(f.value.items[j], workspace)
  }

  ghost predicate NamesValue(v: Json, workspace: string) {
    v == Str(workspace) || (v.Obj? && exists i :: 0 <= i < |v.fields| && OperatorNames(v.fields[i], workspace))
  }

  ghost predicate OperatorNames(f: Field, workspace: string) {
    || (f.key == "$eq" && f.value == Str(workspace))
    || (f.key == "$in" && f.value.Arr? && Str(workspace) in f.value.items)
  }

  lemma PinnedValueNames(sem: Semantics, v: Json, workspace: string)
    requires Pins(v) && ValueMatches(sem, v, workspace)
    ensures NamesValue(v, workspace)
  {
    if IsOperatorObject(v) {
      var i :| 0 <= i < |v.fields| && PinsOperator(v.fields[i]);
      assert OperatorHolds(sem, v.fields[i].key, v.fields[i].value, workspace);
      assert OperatorNames(v.fields[i], workspace);
    }
  }

  /**
   A document that matches a filter accepted by the strict rules belongs to a workspace the filter names, whatever
   else the filter asks, `$nor` and patterns included.
   */
  lemma {:induction false} AcceptedIsConfined(sem: Semantics, filter: Json, doc: Doc)
    requires Constrains(filter, STRICT) && Matches(sem, filter, doc)
    ensures Names(filter, doc.workspaceId)
    decreases filter
  {
    var fields := filter.fields;
    var own := IndexOf(fields, TENANT_KEY);
    if own.Some? {
      assert ClauseHolds(sem, fields[own.value], doc);
      PinnedValueNames(sem, fields[own.value].value, doc.workspaceId);
    } else {
      var both, either := IndexOf(fields, "$and"), IndexOf(fields, "$or");
      if both.Some? && SomeConstrains(fields[both.value].value, STRICT) {
        AndIsConfined(sem, fields[both.value], doc);
      } else {
        OrIsConfined(sem, fields[either.value], doc);
      }
    }
  }

  lemma {:induction false} AndIsConfined(sem: Semantics, f: Field, doc: Doc)
    requires f.key == "$and" && SomeConstrains(f.value, STRICT) && ClauseHolds(sem, f, doc)
    ensures ClauseNames(f, doc.workspaceId)
    decreases f
  {
    var i :| 0 <= i < |f.value.items| && Constrains(f.value.items[i], STRICT);
    AcceptedIsConfined(sem, f.value.items[i], doc);
  }

  lemma {:induction false} OrIsConfined(sem: Semantics, f: Field, doc: Doc)
    requires f.key == "$or" && AllConstrain(f.value, STRICT) && ClauseHolds(sem, f, doc)
    ensures ClauseNames(f, doc.workspaceId)
    decreases f
  {
    var i :| 0 <= i < |f.value.items| && Matches(sem, f.value.items[i], doc);
    AcceptedIsConfined(sem, f.value.items[i], doc);
  }

  // ---- What the rules as written need besides ----

  /** No `$nor` in the filter or in the branches the analysis looks into. */
  ghost predicate NorFree(filter: Json)
    decreases filter
  {
    filter.Obj? ==> forall i :: 0 <= i < |filter.fields| ==> FieldNorFree(filter.fields[i])
  }

  ghost predicate FieldNorFree(f: Field)
    decreases f
  {
    f.key != "$nor" && (f.value.Arr? ==> forall i :: 0 <= i < |f.value.items| ==> NorFree(f.value.items[i]))
  }

  /** Each workspace value that gets credit has an equality, or a list free of patterns. */
  ghost predicate CreditIsPinned(filter: Json)
    decreases filter
  {
    filter.Obj? ==> forall i :: 0 <= i < |filter.fields| ==> FieldIsPinned(filter.fields[i])
  }

  ghost predicate FieldIsPinned(f: Field)
    decreases f
  {
    && (f.key == TENANT_KEY && Narrows(f.value) ==> Pins(f.value))
    && (f.value.Arr? ==> forall i :: 0 <= i < |f.value.items| ==> CreditIsPinned(f.value.items[i]))
  }

  /** Without `$nor` and with every credit pinned, the rules as written are the strict ones. */
  lemma {:induction false} PlainAnalysis(filter: Json)
    requires NorFree(filter) && CreditIsPinned(filter)
    ensures Constrains(filter, AS_WRITTEN) == Constrains(filter, STRICT)
    decreases filter
  {
    if filter.Obj? {
      forall k, i | 0 <= k < |filter.fields| && filter.fields[k].value.Arr? && 0 <= i < |filter.fields[k].value.items|
        ensures Constrains(filter.fields[k].value.items[i], AS_WRITTEN) == Constrains(filter.fields[k].value.items[i], STRICT)
      {
        assert FieldNorFree(filter.fields[k]) && FieldIsPinned(filter.fields[k]);
        PlainAnalysis(filter.fields[k].value.items[i]);
      }
      assert forall k :: 0 <= k < |filter.fields| ==> FieldIsPinned(filter.fields[k]);
      assert IndexOf(filter.fields, "$nor").None?;
    }
  }

  lemma GuardIsSound(sem: Semantics, filter: Json, doc: Doc)
    requires NorFree(filter) && CreditIsPinned(filter) && FilterConstrainsWorkspace(filter) && Matches(sem, filter, doc)
    ensures Names(filter, doc.workspaceId)
  {
    PlainAnalysis(filter);
    AcceptedIsConfined(sem, filter, doc);
  }

  /** A filter that is nothing but a `$nor` of constrained branches is accepted, and lets every workspace through that they do not name. */
  lemma NorLetsOthersThrough(sem: Semantics, branches: seq<Json>, doc: Doc)
    requires AllConstrain(Arr(branches), STRICT)
    requires forall i :: 0 <= i < |branches| ==> !Names(branches[i], doc.workspaceId)
    ensures FilterConstrainsWorkspace(Obj([Field("$nor", Arr(branches))]))
    ensures Matches(sem, Obj([Field("$nor", Arr(branches))]), doc)
  {
    forall i | 0 <= i < |branches|
      ensures !Matches(sem, branches[i], doc)
    {
      if Matches(sem, branches[i], doc) {
        AcceptedIsConfined(sem, branches[i], doc);
      }
    }
    NorIsAccepted(branches, STRICT);
    assert ClauseHolds(sem, Field("$nor", Arr(branches)), doc);
  }

  lemma NorIsAccepted(branches: seq<Json>, rules: Rules)
    requires AllConstrain(Arr(branches), rules)
    ensures FilterConstrainsWorkspace(Obj([Field("$nor", Arr(branches))]))
  {
    forall i | 0 <= i < |branches|
      ensures Constrains(branches[i], AS_WRITTEN)
    {
      assert Constrains(Arr(branches).items[i], rules);
      CreditOnlyAdds(branches[i], rules);
    }
    var f := Field("$nor", Arr(branches));
    assert IndexOf([f], "$nor") == Some(0);
    assert AllConstrain(Arr(branches), AS_WRITTEN);
  }

  /** Less credit never accepts more. */
  lemma {:induction false} CreditOnlyAdds(filter: Json, rules: Rules)
    requires Constrains(filter, rules)
    ensures Constrains(filter, AS_WRITTEN)
    decreases filter
  {
    var fields := filter.fields;
    if IndexOf(fields, TENANT_KEY).None? {
      forall k | 0 <= k < |fields|
        ensures SomeConstrains(fields[k].value, rules) ==> SomeConstrains(fields[k].value, AS_WRITTEN)
        ensures AllConstrain(fields[k].value, rules) ==> AllConstrain(fields[k].value, AS_WRITTEN)
      {
        BranchCreditOnlyAdds(fields[k], rules);
      }
    }
  }

  lemma {:induction false} BranchCreditOnlyAdds(f: Field, rules: Rules)
    ensures SomeConstrains(f.value, rules) ==> SomeConstrains(f.value, AS_WRITTEN)
    ensures AllConstrain(f.value, rules) ==> AllConstrain(f.value, AS_WRITTEN)
    decreases f
  {
    if f.value.Arr? {
      forall i | 0 <= i < |f.value.items| && Constrains(f.value.items[i], rules)
        ensures Constrains(f.value.items[i], AS_WRITTEN)
      {
        CreditOnlyAdds(f.value.items[i], rules);
      }
    }
  }

  // ---- Which filters without `$nor` are confined ----

  /** The values a filter mentions in any clause, through `$and` and `$or`. */
  ghost predicate Mentions(filter: Json, workspace: string)
    decreases filter
  {
    filter.Obj? && exists i :: 0 <= i < |filter.fields| && ClauseMentions(filter.fields[i], workspace)
  }

  ghost predicate ClauseMentions(f: Field, workspace: string)
    decreases f
  {
    if f.key == TENANT_KEY then NamesValue(f.value, workspace)
    else (f.key == "$and" || f.key == "$or") && f.value.Arr? && exists j :: 0 <= j < |f.value.items| && Mentions(f.value.items[j], workspace)
  }

  /** Naming is one way of mentioning. */
  lemma {:induction false} NamedIsMentioned(filter: Json, workspace: string)
    requires Names(filter, workspace)
    ensures Mentions(filter, workspace)
    decreases filter
  {
    var own := IndexOf(filter.fields, TENANT_KEY);
    if own.Some? {
      assert ClauseMentions(filter.fields[own.value], workspace);
    } else {
      var i :| 0 <= i < |filter.fields| && ClauseNames(filter.fields[i], workspace);
      var f := filter.fields[i];
      var j :| 0 <= j < |f.value.items| && Names(f.value.items[j], workspace);
      NamedIsMentioned(f.value.items[j], workspace);
      assert ClauseMentions(f, workspace);
    }
  }

  /** Nothing in the value's own shape keeps an unmentioned workspace out. */
  predicate ValueIsOpen(v: Json) {
    !Pins(v)
  }

  /** The filter is open on some path: in each of its clauses, all branches of `$and`, one of `$or`. */
  ghost predicate IsOpen(filter: Json)
    decreases filter
  {
    filter.Obj? && forall i :: 0 <= i < |filter.fields| ==> ClauseIsOpen(filter.fields[i])
  }

  ghost predicate ClauseIsOpen(f: Field)
    decreases f
  {
    var v := f.value;
    if f.key == TENANT_KEY then ValueIsOpen(v)
    else if f.key == "$and" then v.Arr? && v.items != [] && forall i :: 0 <= i < |v.items| ==> IsOpen(v.items[i])
    else if f.key == "$or" then v.Arr? && exists i :: 0 <= i < |v.items| && IsOpen(v.items[i])
    else true
  }

  /** The server could read every pattern, operator and other clause as holding. */
  function Permissive(): Semantics {
    Semantics((_, _, _) => true, (_, _, _) => true, (_, _) => true)
  }

  /** An open value takes any workspace, if the server reads what is not named as holding. */
  lemma OpenValueMatches(v: Json, workspace: string)
    requires ValueIsOpen(v)
    ensures ValueMatches(Permissive(), v, workspace)
  {
    if v.Pattern? {
      assert PatternMatches(Permissive(), v, workspace);
    } else {
      forall i | 0 <= i < |v.fields|
        ensures OperatorHolds(Permissive(), v.fields[i].key, v.fields[i].value, workspace)
      {
        assert !PinsOperator(v.fields[i]);
        if v.fields[i].key == "$in" {
          OpenListHolds(v.fields[i].value.items, workspace);
        }
      }
    }
  }

  lemma OpenListHolds(items: seq<Json>, workspace: string)
    requires HasPattern(items)
    ensures ListHolds(Permissive(), items, workspace)
  {
    var i :| 0 <= i < |items| && items[i].Pattern?;
    assert PatternMatches(Permissive(), items[i], workspace);
  }

  /** A value is confined to what it names, under every semantics, if and only if it has an equality or a list free of patterns. */
  lemma ValueConfinedIff(v: Json)
    ensures (forall sem: Semantics, workspace: string :: ValueMatches(sem, v, workspace) ==> NamesValue(v, workspace)) <==> Pins(v)
  {
    if Pins(v) {
      forall sem: Semantics, workspace: string | ValueMatches(sem, v, workspace)
        ensures NamesValue(v, workspace)
      {
        PinnedValueNames(sem, v, workspace);
      }
    } else {
      var unnamed := Fresh(Longest(v));
      OpenValueMatches(v, unnamed);
      if NamesValue(v, unnamed) {
        NamedValueIsShort(v, unnamed);
      }
    }
  }

  /** A workspace longer than anything of this length. */
  function Fresh(n: nat): (workspace: string)
    ensures |workspace| == n + 1
  {
    seq(n + 1, _ => 'w')
  }

  /** An open filter takes any workspace. */
  lemma {:induction false} OpenMatches(filter: Json, doc: Doc)
    requires IsOpen(filter) && NorFree(filter)
    ensures Matches(Permissive(), filter, doc)
    decreases filter
  {
    forall i | 0 <= i < |filter.fields|
      ensures ClauseHolds(Permissive(), filter.fields[i], doc)
    {
      assert ClauseIsOpen(filter.fields[i]) && FieldNorFree(filter.fields[i]);
      OpenClauseHolds(filter.fields[i], doc);
    }
  }

  lemma {:induction false} OpenClauseHolds(f: Field, doc: Doc)
    requires ClauseIsOpen(f) && FieldNorFree(f)
    ensures ClauseHolds(Permissive(), f, doc)
    decreases f
  {
    if f.key == TENANT_KEY {
      OpenValueMatches(f.value, doc.workspaceId);
    } else if f.key == "$and" {
      forall i | 0 <= i < |f.value.items|
        ensures Matches(Permissive(), f.value.items[i], doc)
      {
        OpenMatches(f.value.items[i], doc);
      }
    } else if f.key == "$or" {
      var i :| 0 <= i < |f.value.items| && IsOpen(f.value.items[i]);
      OpenMatches(f.value.items[i], doc);
    }
  }

  /** What a document of an unmentioned workspace matches is open. */
  lemma {:induction false} UnmentionedMeansOpen(sem: Semantics, filter: Json, doc: Doc)
    requires NorFree(filter) && Matches(sem, filter, doc) && !Mentions(filter, doc.workspaceId)
    ensures IsOpen(filter)
    decreases filter
  {
    forall i | 0 <= i < |filter.fields|
      ensures ClauseIsOpen(filter.fields[i])
    {
      assert ClauseHolds(sem, filter.fields[i], doc) && FieldNorFree(filter.fields[i]) && !ClauseMentions(filter.fields[i], doc.workspaceId);
      UnmentionedClause(sem, filter.fields[i], doc);
    }
  }

  lemma {:induction false} UnmentionedClause(sem: Semantics, f: Field, doc: Doc)
    requires FieldNorFree(f) && ClauseHolds(sem, f, doc) && !ClauseMentions(f, doc.workspaceId)
    ensures ClauseIsOpen(f)
    decreases f
  {
    if f.key == TENANT_KEY {
      if Pins(f.value) {
        PinnedValueNames(sem, f.value, doc.workspaceId);
      }
    } else if f.key == "$and" {
      forall i | 0 <= i < |f.value.items|
        ensures IsOpen(f.value.items[i])
      {
        UnmentionedMeansOpen(sem, f.value.items[i], doc);
      }
    } else if f.key == "$or" {
      var i :| 0 <= i < |f.value.items| && Matches(sem, f.value.items[i], doc);
      UnmentionedMeansOpen(sem, f.value.items[i], doc);
    }
  }

  /** Under every semantics, what the filter matches belongs to a workspace it mentions. */
  ghost predicate IsConfined(filter: Json) {
    forall sem: Semantics, doc: Doc :: Matches(sem, filter, doc) ==> Mentions(filter, doc.workspaceId)
  }

  /** A filter without `$nor`, accepted or not, is confined if and only if it is not open. */
  lemma ConfinedIffNotOpen(filter: Json)
    requires NorFree(filter)
    ensures IsConfined(filter) <==> !IsOpen(filter)
  {
    if IsOpen(filter) {
      var doc := Doc(Fresh(Longest(filter)), Null);
      OpenMatches(filter, doc);
      if Mentions(filter, doc.workspaceId) {
        MentionedIsShort(filter, doc.workspaceId);
      }
    } else {
      forall sem: Semantics, doc: Doc | Matches(sem, filter, doc)
        ensures Mentions(filter, doc.workspaceId)
      {
        if !Mentions(filter, doc.workspaceId) {
          UnmentionedMeansOpen(sem, filter, doc);
        }
      }
    }
  }

  /** What the strict rules accept is not open. */
  lemma StrictIsNotOpen(filter: Json)
    requires NorFree(filter) && Constrains(filter, STRICT)
    ensures !IsOpen(filter)
  {
    forall sem: Semantics, doc: Doc | Matches(sem, filter, doc)
      ensures Mentions(filter, doc.workspaceId)
    {
      AcceptedIsConfined(sem, filter, doc);
      NamedIsMentioned(filter, doc.workspaceId);
    }
    ConfinedIffNotOpen(filter);
  }

  /** `{ workspaceId: { $in: [/^/] } }`. */
  function AnyInList(): Json {
    Obj([Field(TENANT_KEY, Obj([Field("$in", Arr([Pattern("^")]))]))])
  }

  /**
   Accepted, without `$nor`, and naming nobody; and wherever the pattern matches every text, as the empty anchor does,
   the filter matches every document of every tenant.
   */
  lemma PatternLetsAllThrough(sem: Semantics, doc: Doc)
    requires sem.pattern("^", doc.workspaceId)
    ensures FilterConstrainsWorkspace(AnyInList()) && NorFree(AnyInList()) && !CreditIsPinned(AnyInList())
    ensures Matches(sem, AnyInList(), doc) && !Mentions(AnyInList(), doc.workspaceId)
  {
    var list := Field("$in", Arr([Pattern("^")]));
    var own := Field(TENANT_KEY, Obj([list]));
    assert IndexOf([list], "$in") == Some(0) && IndexOf([list], "$eq").None? && IndexOf([own], TENANT_KEY) == Some(0);
    assert PatternMatches(sem, list.value.items[0], doc.workspaceId);
    assert OperatorHolds(sem, list.key, list.value, doc.workspaceId);
    assert ValueMatches(sem, own.value, doc.workspaceId) && ClauseHolds(sem, own, doc);
    assert list.value.items[0].Pattern? && !PinsOperator(list) && !Pins(own.value) && Narrows(own.value);
    assert !FieldIsPinned(AnyInList().fields[0]);
    assert FieldNorFree(own);
    assert !OperatorNames(list, doc.workspaceId) && !NamesValue(own.value, doc.workspaceId);
    assert !ClauseMentions(own, doc.workspaceId);
  }

  // ---- How far the failure of `$nor` goes ----

  function Max(a: nat, b: nat): nat {
    if a > b then a else b
  }

  /** No string anywhere in the value is longer than this. */
  function Longest(v: Json): nat
    decreases v
  {
    match v
    case Str(text) => |text|
    case Arr(items) => LongestItem(items)
    case Obj(fields) => LongestField(fields)
    case _ => 0
  }

  function LongestItem(items: seq<Json>): nat {
    if items == [] then 0 else Max(Longest(items[0]), LongestItem(items[1..]))
  }

  function LongestField(fields: seq<Field>): nat {
    if fields == [] then 0 else Max(Longest(fields[0].value), LongestField(fields[1..]))
  }

  lemma {:induction false} ItemIsShorter(items: seq<Json>, i: nat)
    requires i < |items|
    ensures Longest(items[i]) <= LongestItem(items)
    decreases i
  {
    if i > 0 {
      ItemIsShorter(items[1..], i - 1);
    }
  }

  lemma {:induction false} FieldIsShorter(fields: seq<Field>, i: nat)
    requires i < |fields|
    ensures Longest(fields[i].value) <= LongestField(fields)
    decreases i
  {
    if i > 0 {
      FieldIsShorter(fields[1..], i - 1);
    }
  }

  lemma NamedValueIsShort(v: Json, workspace: string)
    requires NamesValue(v, workspace)
    ensures |workspace| <= Longest(v)
  {
    if v != Str(workspace) {
      var i :| 0 <= i < |v.fields| && OperatorNames(v.fields[i], workspace);
      FieldIsShorter(v.fields, i);
      if v.fields[i].key == "$in" {
        var list := v.fields[i].value.items;
        var j :| 0 <= j < |list| && list[j] == Str(workspace);
        ItemIsShorter(list, j);
      }
    }
  }

  /** A filter can mention no workspace longer than what it contains. */
  lemma {:induction false} MentionedIsShort(filter: Json, workspace: string)
    requires Mentions(filter, workspace)
    ensures |workspace| <= Longest(filter)
    decreases filter
  {
    var i :| 0 <= i < |filter.fields| && ClauseMentions(filter.fields[i], workspace);
    var f := filter.fields[i];
    FieldIsShorter(filter.fields, i);
    if f.key == TENANT_KEY {
      NamedValueIsShort(f.value, workspace);
    } else {
      var j :| 0 <= j < |f.value.items| && Mentions(f.value.items[j], workspace);
      MentionedIsShort(f.value.items[j], workspace);
      ItemIsShorter(f.value.items, j);
    }
  }

  /** Whatever the branches, there are workspaces all of whose documents such a filter lets through. */
  lemma NorIsNeverConfined(branches: seq<Json>) returns (workspace: string)
    requires AllConstrain(Arr(branches), STRICT)
    ensures FilterConstrainsWorkspace(Obj([Field("$nor", Arr(branches))]))
    ensures !Mentions(Obj([Field("$nor", Arr(branches))]), workspace)
    ensures forall sem: Semantics, doc: Doc :: doc.workspaceId == workspace ==> Matches(sem, Obj([Field("$nor", Arr(branches))]), doc)
  {
    workspace := Fresh(LongestItem(branches));
    forall i | 0 <= i < |branches|
      ensures !Names(branches[i], workspace)
    {
      if Names(branches[i], workspace) {
        NamedIsMentioned(branches[i], workspace);
        MentionedIsShort(branches[i], workspace);
        ItemIsShorter(branches, i);
      }
    }
    var filter := Obj([Field("$nor", Arr(branches))]);
    forall sem: Semantics, doc: Doc | doc.workspaceId == workspace
      ensures Matches(sem, filter, doc)
    {
      NorLetsOthersThrough(sem, branches, doc);
    }
    NorIsAccepted(branches, STRICT);
  }

  /**
   Needing the credit is not the same as escaping: this filter is accepted for its `$nor` alone and can be matched,
   and still every document it matches, under any semantics, belongs to the one workspace it names, because its other
   `$or` branch matches nothing. Telling such filters apart means deciding whether a branch can be matched at all.
   */
  lemma NorCreditCanBeHarmless() returns (filter: Json)
    ensures Constrains(filter, AS_WRITTEN) && !Constrains(filter, Rules(false, true))
    ensures forall sem: Semantics, doc: Doc :: Matches(sem, filter, doc) <==> doc.workspaceId == "b"
    ensures forall workspace :: Names(filter, workspace) <==> workspace == "b"
  {
    var nothing := Obj([Field("$nor", Arr([Obj([])]))]);
    var inB := Obj([Field(TENANT_KEY, Str("b"))]);
    var notA := Field("$nor", Arr([Obj([Field(TENANT_KEY, Str("a"))])]));
    var either := Field("$or", Arr([inB, nothing]));
    filter := Obj([either, notA]);
    HarmlessAnalysis(nothing, inB, notA, either);
    forall sem: Semantics, doc: Doc
      ensures Matches(sem, filter, doc) <==> doc.workspaceId == "b"
    {
      HarmlessMeaning(sem, doc, nothing, inB, notA, either);
    }
    forall workspace: string
      ensures Names(filter, workspace) <==> workspace == "b"
    {
      HarmlessNames(workspace, nothing, inB, notA, either);
    }
  }

  lemma HarmlessAnalysis(nothing: Json, inB: Json, notA: Field, either: Field)
    requires nothing == Obj([Field("$nor", Arr([Obj([])]))]) && inB == Obj([Field(TENANT_KEY, Str("b"))])
    requires notA == Field("$nor", Arr([Obj([Field(TENANT_KEY, Str("a"))])])) && either == Field("$or", Arr([inB, nothing]))
    ensures Constrains(Obj([either, notA]), AS_WRITTEN) && !Constrains(Obj([either, notA]), Rules(false, true))
  {
    var fields := [either, notA];
    assert fields[1..] == [notA];
    assert IndexOf([notA], "$nor") == Some(0);
    assert IndexOf(fields, "$nor") == Some(1) && IndexOf(fields, "$or") == Some(0);
    assert IndexOf(fields, TENANT_KEY).None? && IndexOf(fields, "$and").None?;
    assert !Constrains(nothing, Rules(false, true));
    assert either.value.items[1] == nothing;
    assert !AllConstrain(either.value, Rules(false, true));
    assert Constrains(Obj([Field(TENANT_KEY, Str("a"))]), AS_WRITTEN);
    assert AllConstrain(notA.value, AS_WRITTEN);
  }

  lemma HarmlessMeaning(sem: Semantics, doc: Doc, nothing: Json, inB: Json, notA: Field, either: Field)
    requires nothing == Obj([Field("$nor", Arr([Obj([])]))]) && inB == Obj([Field(TENANT_KEY, Str("b"))])
    requires notA == Field("$nor", Arr([Obj([Field(TENANT_KEY, Str("a"))])])) && either == Field("$or", Arr([inB, nothing]))
    ensures Matches(sem, Obj([either, notA]), doc) <==> doc.workspaceId == "b"
  {
    assert Matches(sem, Obj([]), doc);
    assert Arr([Obj([])]).items[0] == Obj([]);
    assert !ClauseHolds(sem, nothing.fields[0], doc);
    assert !Matches(sem, nothing, doc);
    assert Matches(sem, inB, doc) <==> ClauseHolds(sem, inB.fields[0], doc);
    assert either.value.items[0] == inB && either.value.items[1] == nothing;
    assert ClauseHolds(sem, either, doc) <==> doc.workspaceId == "b";
    var inA := Obj([Field(TENANT_KEY, Str("a"))]);
    assert Matches(sem, inA, doc) <==> ClauseHolds(sem, inA.fields[0], doc);
    assert notA.value.items[0] == inA;
    assert ClauseHolds(sem, notA, doc) <==> doc.workspaceId != "a";
    var filter := Obj([either, notA]);
    assert filter.fields[0] == either && filter.fields[1] == notA;
  }

  lemma HarmlessNames(workspace: string, nothing: Json, inB: Json, notA: Field, either: Field)
    requires nothing == Obj([Field("$nor", Arr([Obj([])]))]) && inB == Obj([Field(TENANT_KEY, Str("b"))])
    requires notA == Field("$nor", Arr([Obj([Field(TENANT_KEY, Str("a"))])])) && either == Field("$or", Arr([inB, nothing]))
    ensures Names(Obj([either, notA]), workspace) <==> workspace == "b"
  {
    assert IndexOf(inB.fields, TENANT_KEY) == Some(0);
    assert Names(inB, workspace) <==> workspace == "b";
    assert !Names(nothing, workspace);
    assert either.value.items[0] == inB && either.value.items[1] == nothing;
    assert ClauseNames(either, workspace) <==> workspace == "b";
    var filter := Obj([either, notA]);
    assert filter.fields[0] == either && filter.fields[1] == notA;
  }

  // ---- Commands ----

  datatype Tenancy = Tenant | Global | Mixed | Unknown

  datatype Violation = MissingWorkspaceFilter | MissingWorkspaceOnInsert | UnknownCollection

  const IGNORED_COMMANDS: set<string> := {
    "ping", "hello", "ismaster", "buildInfo", "getMore", "killCursors",
    "endSessions", "createIndexes", "listIndexes", "dropIndexes", "listCollections",
    "listDatabases", "create", "drop", "collMod", "saslStart", "saslContinue",
    "authenticate", "logout", "abortTransaction", "commitTransaction", "aggregate:admin"
  }

  const SEARCH_STAGES: seq<string> := ["$search", "$vectorSearch", "$searchMeta"]

  predicate DeclaresPlatformIntent(command: seq<Field>) {
    match Get(command, "comment")
    case Some(Str(comment)) => StartsWith(comment, PLATFORM_MARKER)
    case Some(Obj(fields)) =>
      (match Get(fields, "salvations")
       case Some(Str(marker)) => StartsWith(marker, "platform")
       case _ => false)
    case _ => false
  }

  predicate FieldConstrains(fields: seq<Field>, key: string) {
    match Get(fields, key)
    case Some(v) => FilterConstrainsWorkspace(v)
    case None => false
  }

  /** A search stage must be constrained from within: nothing downstream can fix it. */
  predicate SearchConstrains(stage: seq<Field>, names: seq<string>) {
    names != [] &&
    match Get(stage, names[0])
    case Some(Obj(body)) => FieldConstrains(body, "filter") || FieldConstrains(body, "compound")
    case Some(Pattern(_)) => false
    case _ => SearchConstrains(stage, names[1..])
  }

  predicate PipelineConstrainsWorkspace(pipeline: Option<Json>) {
    && pipeline.Some? && pipeline.value.Arr? && pipeline.value.items != [] && pipeline.value.items[0].Obj?
    && var first := pipeline.value.items[0].fields;
    match Get(first, "$match")
    case Some(Obj(fields)) => FilterConstrainsWorkspace(Obj(fields))
    case Some(Pattern(_)) => false
    case _ => SearchConstrains(first, SEARCH_STAGES)
  }

  predicate EachConstrains(statements: Option<Json>) {
    statements.Some? && statements.value.Arr? ==>
      forall i :: 0 <= i < |statements.value.items| ==>
        statements.value.items[i].Obj? && FieldConstrains(statements.value.items[i].fields, "q")
  }

  predicate EachStamped(documents: Option<Json>) {
    documents.Some? && documents.value.Arr? ==>
      forall i :: 0 <= i < |documents.value.items| ==> Stamped(documents.value.items[i])
  }

  predicate Stamped(doc: Json) {
    doc.Obj? &&
    match Get(doc.fields, TENANT_KEY)
    case Some(Str(workspace)) => workspace != ""
    case _ => false
  }

  /** `command['filter'] ?? command['query']`. */
  function QueryOf(command: seq<Field>): Option<Json> {
    match Get(command, "filter")
    case Some(v) => if v.Null? then Get(command, "query") else Some(v)
    case None => Get(command, "query")
  }

  function Unless(fine: bool, v: Violation): Option<Violation> {
    if fine then None else Some(v)
  }

  function AnalyzeCommand(tenancyOf: string -> Tenancy, name: string, command: seq<Field>): Option<Violation> {
    if name in IGNORED_COMMANDS then None
    else
      match Get(command, name)
      case Some(Str(collection)) =>
        var tenancy := tenancyOf(collection);
        if tenancy.Global? then None
        else if tenancy.Unknown? then Some(UnknownCollection)
        else if DeclaresPlatformIntent(command) then None
        else Judge(name, command)
      case _ => None
  }

  /** What is asked of each kind of command. */
  function Judge(name: string, command: seq<Field>): Option<Violation> {
    if name in {"find", "count", "distinct"} then
      Unless(QueryOf(command).Some? && FilterConstrainsWorkspace(QueryOf(command).value), MissingWorkspaceFilter)
    else if name == "aggregate" then Unless(PipelineConstrainsWorkspace(Get(command, "pipeline")), MissingWorkspaceFilter)
    else if name == "findAndModify" then Unless(FieldConstrains(command, "query"), MissingWorkspaceFilter)
    else if name == "update" then Unless(EachConstrains(Get(command, "updates")), MissingWorkspaceFilter)
    else if name == "delete" then Unless(EachConstrains(Get(command, "deletes")), MissingWorkspaceFilter)
    else if name == "insert" then Unless(EachStamped(Get(command, "documents")), MissingWorkspaceOnInsert)
    else None
  }

  /** The command selects documents with this filter. */
  ghost predicate Selects(name: string, command: seq<Field>, filter: Json) {
    if name in {"find", "count", "distinct"} then QueryOf(command) == Some(filter)
    else if name == "aggregate" then StageSelects(Get(command, "pipeline"), filter)
    else if name == "findAndModify" then Get(command, "query") == Some(filter)
    else if name == "update" then StatementSelects(Get(command, "updates"), filter)
    else if name == "delete" then StatementSelects(Get(command, "deletes"), filter)
    else false
  }

  /** A pipeline that begins with a match. */
  ghost predicate StageSelects(pipeline: Option<Json>, filter: Json) {
    && pipeline.Some? && pipeline.value.Arr? && pipeline.value.items != [] && pipeline.value.items[0].Obj?
    && filter.Obj? && Get(pipeline.value.items[0].fields, "$match") == Some(filter)
  }

  ghost predicate StatementSelects(statements: Option<Json>, filter: Json) {
    && statements.Some? && statements.value.Arr?
    && exists i :: 0 <= i < |statements.value.items| && statements.value.items[i].Obj? && Get(statements.value.items[i].fields, "q") == Some(filter)
  }

  /** What a passed command selects, in a pipeline by its leading match, belongs to workspaces its own filter names. */
  lemma PassedCommandIsConfined(sem: Semantics, tenancyOf: string -> Tenancy, name: string, command: seq<Field>, collection: string, filter: Json, doc: Doc)
    requires Get(command, name) == Some(Str(collection)) && (tenancyOf(collection).Tenant? || tenancyOf(collection).Mixed?)
    requires !DeclaresPlatformIntent(command) && AnalyzeCommand(tenancyOf, name, command).None?
    requires Selects(name, command, filter) && NorFree(filter) && CreditIsPinned(filter) && Matches(sem, filter, doc)
    ensures Names(filter, doc.workspaceId)
  {
    PassedFilterIsAccepted(tenancyOf, name, command, collection, filter);
    GuardIsSound(sem, filter, doc);
  }

  lemma PassedFilterIsAccepted(tenancyOf: string -> Tenancy, name: string, command: seq<Field>, collection: string, filter: Json)
    requires Get(command, name) == Some(Str(collection)) && (tenancyOf(collection).Tenant? || tenancyOf(collection).Mixed?)
    requires !DeclaresPlatformIntent(command) && AnalyzeCommand(tenancyOf, name, command).None? && Selects(name, command, filter)
    ensures FilterConstrainsWorkspace(filter)
  {
    SelectingNamesAreAnalyzed(name, command, filter);
  }

  /** The analysis reads the first stage of a pipeline and no other. */
  lemma LaterStagesAreNotRead(first: Json, rest: seq<Json>)
    ensures PipelineConstrainsWorkspace(Some(Arr([first] + rest))) == PipelineConstrainsWorkspace(Some(Arr([first])))
  {
    assert ([first] + rest)[0] == first;
  }

  /** So a pipeline that goes on to read another collection whole is passed for its leading match. */
  lemma UnionPasses(workspace: string, collection: string)
    ensures PipelineConstrainsWorkspace(Some(Arr([Obj([Field("$match", Obj([Field(TENANT_KEY, Str(workspace))]))]), Obj([Field("$unionWith", Str(collection))])])))
  {
    var own := [Field(TENANT_KEY, Str(workspace))];
    var first, union := Obj([Field("$match", Obj(own))]), Obj([Field("$unionWith", Str(collection))]);
    assert IndexOf(own, TENANT_KEY) == Some(0) && Get(first.fields, "$match") == Some(Obj(own));
    assert FilterConstrainsWorkspace(Obj(own));
    LaterStagesAreNotRead(first, [union]);
    assert [first] + [union] == [first, union];
  }

  lemma SelectingNamesAreAnalyzed(name: string, command: seq<Field>, filter: Json)
    requires Selects(name, command, filter)
    ensures name !in IGNORED_COMMANDS
  {
  }
}
