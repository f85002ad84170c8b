/**
 Which commands the tenancy guard refuses, and with which violation, told by what stands in the command's fields.
 */
module GuardVerdicts {
  import opened Options
  import opened Guard

  /** The object has this value under the key; of repeated keys the first counts. */
  ghost predicate Holds(fields: seq<Field>, key: string, v: Json) {
    exists i :: 0 <= i < |fields| && fields[i] == Field(key, v) && forall j :: 0 <= j < i ==> fields[j].key != key
  }

  lemma {:induction false} GetIffHolds(fields: seq<Field>, key: string, v: Json)
    ensures Get(fields, key) == Some(v) <==> Holds(fields, key, v)
  {
    if fields != [] {
      GetIffHolds(fields[1..], key, v);
      if fields[0].key == key {
        assert Get(fields, key) == Some(fields[0].value);
        assert Holds(fields, key, fields[0].value);
      } else {
        assert Get(fields, key) == Get(fields[1..], key);
        HoldsBehind(fields, key, v);
      }
    }
  }

  lemma HoldsBehind(fields: seq<Field>, key: string, v: Json)
    requires fields != [] && fields[0].key != key
    ensures Holds(fields, key, v) <==> Holds(fields[1..], key, v)
  {
    if Holds(fields, key, v) {
      var i :| 0 <= i < |fields| && fields[i] == Field(key, v) && forall j :: 0 <= j < i ==> fields[j].key != key;
      assert fields[1..][i - 1] == Field(key, v);
    }
    if Holds(fields[1..], key, v) {
      var i :| 0 <= i < |fields[1..]| && fields[1..][i] == Field(key, v) && forall j :: 0 <= j < i ==> fields[1..][j].key != key;
      assert fields[i + 1] == Field(key, v);
      forall j | 0 <= j < i + 1
        ensures fields[j].key != key
      {
        if j > 0 {
          assert fields[1..][j - 1] == fields[j];
        }
      }
    }
  }

  /** For the values under a key, as the guard and as the fields have them. */
  lemma Lookup(fields: seq<Field>, key: string)
    ensures forall v :: Get(fields, key) == Some(v) <==> Holds(fields, key, v)
  {
    forall v
      ensures Get(fields, key) == Some(v) <==> Holds(fields, key, v)
    {
      GetIffHolds(fields, key, v);
    }
  }

  // ---- Which commands are judged ----

  ghost predicate Targets(name: string, command: seq<Field>, collection: string) {
    name !in IGNORED_COMMANDS && Holds(command, name, Str(collection))
  }

  /** A comment that begins with the marker, or one whose `salvations` entry begins with `platform`. */
  ghost predicate DeclaresIntent(command: seq<Field>) {
    || (exists comment :: Holds(command, "comment", Str(comment)) && "salvations:platform" <= comment)
    || (exists fields, marker :: Holds(command, "comment", Obj(fields)) && Holds(fields, "salvations", Str(marker)) && "platform" <= marker)
  }

  lemma IntentIsDeclared(command: seq<Field>)
    ensures DeclaresPlatformIntent(command) <==> DeclaresIntent(command)
  {
    Lookup(command, "comment");
    match Get(command, "comment")
    case Some(Str(comment)) =>
      assert Holds(command, "comment", Str(comment));
    case Some(Obj(fields)) =>
      assert Holds(command, "comment", Obj(fields));
      Lookup(fields, "salvations");
      match Get(fields, "salvations") {
        case Some(Str(marker)) => assert Holds(fields, "salvations", Str(marker));
        case _ =>
      }
    case _ =>
  }

  /** The command reads or writes a tenant's or a mixed collection, and does not declare that it crosses workspaces. */
  ghost predicate IsJudged(tenancyOf: string -> Tenancy, name: string, command: seq<Field>) {
    && !DeclaresIntent(command)
    && exists collection :: Targets(name, command, collection) && (tenancyOf(collection).Tenant? || tenancyOf(collection).Mixed?)
  }

  lemma TargetIs(name: string, command: seq<Field>, collection: string)
    requires Targets(name, command, collection)
    ensures Get(command, name) == Some(Str(collection))
  {
    GetIffHolds(command, name, Str(collection));
  }

  // ---- Unknown collections ----

  /** An unclassified collection is refused whatever the command says, platform intent included, and nothing else is refused so. */
  lemma UnknownIsRefused(tenancyOf: string -> Tenancy, name: string, command: seq<Field>)
    ensures AnalyzeCommand(tenancyOf, name, command) == Some(UnknownCollection) <==>
      exists collection :: Targets(name, command, collection) && tenancyOf(collection).Unknown?
  {
    Lookup(command, name);
    if collection :| Targets(name, command, collection) {
      TargetIs(name, command, collection);
    }
    if AnalyzeCommand(tenancyOf, name, command) == Some(UnknownCollection) {
      assert Targets(name, command, Get(command, name).value.text);
    }
  }

  // ---- Inserts ----

  /** A document with a workspace of its own. */
  ghost predicate CarriesWorkspace(doc: Json) {
    doc.Obj? && exists workspace :: workspace != "" && Holds(doc.fields, "workspaceId", Str(workspace))
  }

  ghost predicate InsertsUnstamped(command: seq<Field>) {
    exists docs, i :: Holds(command, "documents", Arr(docs)) && 0 <= i < |docs| && !CarriesWorkspace(docs[i])
  }

  lemma StampedIffCarries(doc: Json)
    ensures Stamped(doc) <==> CarriesWorkspace(doc)
  {
    if doc.Obj? {
      Lookup(doc.fields, "workspaceId");
      if Stamped(doc) {
        assert Holds(doc.fields, "workspaceId", Str(Get(doc.fields, "workspaceId").value.text));
      }
    }
  }

  lemma EachStampedIff(command: seq<Field>)
    ensures EachStamped(Get(command, "documents")) <==> !InsertsUnstamped(command)
  {
    Lookup(command, "documents");
    var documents := Get(command, "documents");
    forall doc
      ensures Stamped(doc) <==> CarriesWorkspace(doc)
    {
      StampedIffCarries(doc);
    }
    if documents.Some? && documents.value.Arr? {
      var docs := documents.value.items;
      assert Holds(command, "documents", Arr(docs));
      if i :| 0 <= i < |docs| && !Stamped(docs[i]) {
        assert !CarriesWorkspace(docs[i]);
      }
    }
  }

  /** What the analysis says of a command is what its rule says, if it is judged. */
  lemma JudgedAs(tenancyOf: string -> Tenancy, name: string, command: seq<Field>)
    requires name !in IGNORED_COMMANDS
    ensures IsJudged(tenancyOf, name, command) ==> AnalyzeCommand(tenancyOf, name, command) == Judge(name, command)
    ensures !IsJudged(tenancyOf, name, command) ==> AnalyzeCommand(tenancyOf, name, command) in {None, Some(UnknownCollection)}
  {
    Lookup(command, name);
    IntentIsDeclared(command);
    match Get(command, name)
    case Some(Str(collection)) =>
      assert Targets(name, command, collection);
    case _ =>
  }

  // ---- Filters ----

  /** There is a filter under the key and it fixes the workspace. */
  ghost predicate FilteredBy(fields: seq<Field>, key: string) {
    exists filter :: Holds(fields, key, filter) && FilterConstrainsWorkspace(filter)
  }

  lemma FieldConstrainsIff(fields: seq<Field>, key: string)
    ensures FieldConstrains(fields, key) <==> FilteredBy(fields, key)
  {
    Lookup(fields, key);
  }

  /** The query is under `filter`, and under `query` when that is absent or null. */
  ghost predicate Queried(command: seq<Field>) {
    || FilteredBy(command, "filter")
    || ((forall v :: Holds(command, "filter", v) ==> v.Null?) && FilteredBy(command, "query"))
  }

  lemma QueriedIff(command: seq<Field>)
    ensures QueryOf(command).Some? && FilterConstrainsWorkspace(QueryOf(command).value) <==> Queried(command)
  {
    Lookup(command, "filter");
    Lookup(command, "query");
  }

  /** Some statement of the list is no object, or has no filter that fixes the workspace. */
  ghost predicate HasLooseStatement(command: seq<Field>, key: string) {
    exists statements, i :: Holds(command, key, Arr(statements)) && 0 <= i < |statements| && IsLoose(statements[i])
  }

  ghost predicate IsLoose(statement: Json) {
    !statement.Obj? || !FilteredBy(statement.fields, "q")
  }

  lemma EachConstrainsIff(command: seq<Field>, key: string)
    ensures EachConstrains(Get(command, key)) <==> !HasLooseStatement(command, key)
  {
    Lookup(command, key);
    var statements := Get(command, key);
    forall s: Json | s.Obj?
      ensures FieldConstrains(s.fields, "q") <==> FilteredBy(s.fields, "q")
    {
      FieldConstrainsIff(s.fields, "q");
    }
    if statements.Some? && statements.value.Arr? {
      var items := statements.value.items;
      assert Holds(command, key, Arr(items));
      forall i | 0 <= i < |items|
        ensures IsLoose(items[i]) <==> !(items[i].Obj? && FieldConstrains(items[i].fields, "q"))
      {
      }
    }
  }

  // ---- Pipelines ----

  /** An object that is not an array; a regular expression is one, with none of the keys the guard reads. */
  ghost predicate HoldsObject(stage: seq<Field>, key: string) {
    exists v :: Holds(stage, key, v) && (v.Obj? || v.Pattern?)
  }

  /** The search the guard looks at: the first of the three kinds the stage has. */
  ghost predicate Searches(stage: seq<Field>, body: seq<Field>) {
    || Holds(stage, "$search", Obj(body))
    || (!HoldsObject(stage, "$search") && Holds(stage, "$vectorSearch", Obj(body)))
    || (!HoldsObject(stage, "$search") && !HoldsObject(stage, "$vectorSearch") && Holds(stage, "$searchMeta", Obj(body)))
  }

  /** A search carries the tenant's filter inside itself. */
  ghost predicate SearchIsFiltered(stage: seq<Field>) {
    exists body :: Searches(stage, body) && (FilteredBy(body, "filter") || FilteredBy(body, "compound"))
  }

  /** What one kind of search decides: nothing if the stage has none. */
  lemma OneKind(stage: seq<Field>, names: seq<string>)
    requires names != []
    ensures !HoldsObject(stage, names[0]) ==> SearchConstrains(stage, names) == SearchConstrains(stage, names[1..])
    ensures HoldsObject(stage, names[0]) ==>
      (SearchConstrains(stage, names) <==> exists body :: Holds(stage, names[0], Obj(body)) && (FilteredBy(body, "filter") || FilteredBy(body, "compound")))
  {
    Lookup(stage, names[0]);
    match Get(stage, names[0])
    case Some(Obj(body)) =>
      assert Holds(stage, names[0], Obj(body));
      FieldConstrainsIff(body, "filter");
      FieldConstrainsIff(body, "compound");
    case Some(v) => assert Holds(stage, names[0], v);
    case None =>
  }

  /** The verdict on a search stage. */
  lemma SearchConstrainsIff(stage: seq<Field>)
    ensures SearchConstrains(stage, SEARCH_STAGES) <==> SearchIsFiltered(stage)
  {
    OneKind(stage, SEARCH_STAGES);
    OneKind(stage, SEARCH_STAGES[1..]);
    OneKind(stage, SEARCH_STAGES[2..]);
    assert SEARCH_STAGES[1..][1..] == SEARCH_STAGES[2..] && SEARCH_STAGES[2..][1..] == [];
    HoldsOne(stage, "$search");
    HoldsOne(stage, "$vectorSearch");
    HoldsOne(stage, "$searchMeta");
  }

  lemma HoldsOne(stage: seq<Field>, key: string)
    ensures forall body :: Holds(stage, key, Obj(body)) ==> HoldsObject(stage, key)
  {
  }

  /** The first stage is a match that fixes the workspace, or has no match and is a search that does. */
  ghost predicate StartsFiltered(command: seq<Field>) {
    exists stages, first ::
      && Holds(command, "pipeline", Arr(stages)) && stages != [] && stages[0] == Obj(first)
      && if HoldsObject(first, "$match") then FilteredBy(first, "$match") else SearchIsFiltered(first)
  }

  lemma FirstStageIff(first: seq<Field>)
    ensures PipelineConstrainsWorkspace(Some(Arr([Obj(first)]))) <==>
      if HoldsObject(first, "$match") then FilteredBy(first, "$match") else SearchIsFiltered(first)
  {
    SearchConstrainsIff(first);
    Lookup(first, "$match");
    match Get(first, "$match")
    case Some(v) => assert Holds(first, "$match", v);
    case None =>
  }

  lemma PipelineIff(command: seq<Field>)
    ensures PipelineConstrainsWorkspace(Get(command, "pipeline")) <==> StartsFiltered(command)
  {
    Lookup(command, "pipeline");
    match Get(command, "pipeline")
    case Some(Arr(stages)) =>
      assert Holds(command, "pipeline", Arr(stages));
      if stages != [] && stages[0].Obj? {
        assert [stages[0]] + stages[1..] == stages;
        LaterStagesAreNotRead(stages[0], stages[1..]);
        FirstStageIff(stages[0].fields);
      }
    case _ =>
  }

  // ---- All commands ----

  /** The command lacks the filter its kind must have. */
  ghost predicate LacksFilter(name: string, command: seq<Field>) {
    if name in {"find", "count", "distinct"} then !Queried(command)
    else if name == "aggregate" then !StartsFiltered(command)
    else if name == "findAndModify" then !FilteredBy(command, "query")
    else if name == "update" then HasLooseStatement(command, "updates")
    else if name == "delete" then HasLooseStatement(command, "deletes")
    else false
  }

  lemma RuleIff(name: string, command: seq<Field>)
    ensures Judge(name, command) == Some(MissingWorkspaceFilter) <==> LacksFilter(name, command)
    ensures Judge(name, command) == Some(MissingWorkspaceOnInsert) <==> name == "insert" && InsertsUnstamped(command)
    ensures Judge(name, command) != Some(UnknownCollection)
  {
    if name in {"find", "count", "distinct"} {
      QueriedIff(command);
    } else if name == "aggregate" {
      PipelineIff(command);
    } else if name == "findAndModify" {
      FieldConstrainsIff(command, "query");
    } else if name == "update" {
      EachConstrainsIff(command, "updates");
    } else if name == "delete" {
      EachConstrainsIff(command, "deletes");
    } else {
      EachStampedIff(command);
    }
  }

  /** Which violation a command is refused for, each exactly when, over every command there is. */
  lemma RefusedIff(tenancyOf: string -> Tenancy, name: string, command: seq<Field>)
    ensures AnalyzeCommand(tenancyOf, name, command) == Some(UnknownCollection) <==>
      exists collection :: Targets(name, command, collection) && tenancyOf(collection).Unknown?
    ensures AnalyzeCommand(tenancyOf, name, command) == Some(MissingWorkspaceFilter) <==>
      IsJudged(tenancyOf, name, command) && LacksFilter(name, command)
    ensures AnalyzeCommand(tenancyOf, name, command) == Some(MissingWorkspaceOnInsert) <==>
      IsJudged(tenancyOf, name, command) && name == "insert" && InsertsUnstamped(command)
  {
    UnknownIsRefused(tenancyOf, name, command);
    RuleIff(name, command);
    if name !in IGNORED_COMMANDS {
      JudgedAs(tenancyOf, name, command);
    }
  }
}
