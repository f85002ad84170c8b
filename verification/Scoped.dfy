/**
 The scoping layer over the tenancy guard: every filter is merged with the workspace and every insert stamped.

 A scoped filter matches exactly the caller's documents within the scope's workspace, and every command the
 layer issues passes the guard.
 */
module Scoped {
  import opened Options
  import opened Guard

  datatype ScopeError = FilterNamesWorkspace | DocumentClaims(workspace: Json) | SearchStageRefused

  function ScopeFilter(workspace: string, filter: seq<Field>): Result<seq<Field>, ScopeError> {
    if IndexOf(filter, TENANT_KEY).Some? then Err(FilterNamesWorkspace)
    else Ok(filter + [Field(TENANT_KEY, Str(workspace))])
  }

  /** Assigning a key keeps its place, or appends it. */
  function Put(fields: seq<Field>, key: string, value: Json): seq<Field> {
    match IndexOf(fields, key)
    case Some(i) => fields[i := Field(key, value)]
    case None => fields + [Field(key, value)]
  }

  function ScopeInsert(workspace: string, doc: seq<Field>): Result<seq<Field>, ScopeError> {
    match Get(doc, TENANT_KEY)
    case Some(claimed) =>
      if claimed != Str(workspace) then Err(DocumentClaims(claimed)) else Ok(Put(doc, TENANT_KEY, Str(workspace)))
    case None => Ok(Put(doc, TENANT_KEY, Str(workspace)))
  }

  /** A scoped filter matches exactly what the caller's filter matches inside the workspace. */
  lemma ScopedFilterIsExact(sem: Semantics, workspace: string, filter: seq<Field>, doc: Doc)
    requires ScopeFilter(workspace, filter).Ok?
    ensures Matches(sem, Obj(ScopeFilter(workspace, filter).value), doc) <==> Matches(sem, Obj(filter), doc) && doc.workspaceId == workspace
  {
    var own := Field(TENANT_KEY, Str(workspace));
    var scoped := filter + [own];
    assert ClauseHolds(sem, own, doc) <==> doc.workspaceId == workspace;
    if Matches(sem, Obj(scoped), doc) {
      forall i | 0 <= i < |filter|
        ensures ClauseHolds(sem, filter[i], doc)
      {
        assert Obj(scoped).fields[i] == filter[i];
      }
      assert Obj(scoped).fields[|filter|] == own;
    }
  }

  lemma {:induction false} AppendedKey(fields: seq<Field>, f: Field)
    requires IndexOf(fields, f.key).None?
    ensures IndexOf(fields + [f], f.key) == Some(|fields|)
    decreases |fields|
  {
    if fields != [] {
      assert (fields + [f])[1..] == fields[1..] + [f];
      AppendedKey(fields[1..], f);
    }
  }

  lemma ScopedFilterIsConstrained(workspace: string, filter: seq<Field>)
    requires ScopeFilter(workspace, filter).Ok?
    ensures FilterConstrainsWorkspace(Obj(ScopeFilter(workspace, filter).value))
  {
    AppendedKey(filter, Field(TENANT_KEY, Str(workspace)));
  }

  lemma {:induction false} ReplacedKey(fields: seq<Field>, key: string, value: Json)
    requires IndexOf(fields, key).Some?
    ensures IndexOf(fields[IndexOf(fields, key).value := Field(key, value)], key) == IndexOf(fields, key)
    decreases |fields|
  {
    var i := IndexOf(fields, key).value;
    if i > 0 {
      ReplacedKey(fields[1..], key, value);
      assert fields[i := Field(key, value)][1..] == fields[1..][i - 1 := Field(key, value)];
    }
  }

  lemma {:induction false} PutElsewhere(fields: seq<Field>, key: string, value: Json, other: string)
    requires other != key
    ensures Get(Put(fields, key, value), other) == Get(fields, other)
    decreases |fields|
  {
    var after := Put(fields, key, value);
    if fields == [] {
      assert after == [Field(key, value)] && after[1..] == [];
    } else if fields[0].key == key {
      assert after == fields[0 := Field(key, value)] && after[1..] == fields[1..];
    } else {
      PutElsewhere(fields[1..], key, value, other);
      assert after[0] == fields[0] && after[1..] == Put(fields[1..], key, value);
    }
  }

  /** The document with the workspace put in and nothing else changed. */
  ghost predicate IsStampedFrom(stamped: seq<Field>, doc: seq<Field>, workspace: string) {
    && Get(stamped, "workspaceId") == Some(Str(workspace))
    && forall key :: key != "workspaceId" ==> Get(stamped, key) == Get(doc, key)
  }

  /** A document that claims no other workspace is stamped and otherwise kept; one that does is refused, with its claim. */
  lemma InsertIsStamped(workspace: string, doc: seq<Field>)
    ensures var r := ScopeInsert(workspace, doc);
      && (r.Ok? <==> Get(doc, TENANT_KEY).None? || Get(doc, TENANT_KEY) == Some(Str(workspace)))
      && (r.Ok? ==> Get(r.value, TENANT_KEY) == Some(Str(workspace)) && IsStampedFrom(r.value, doc, workspace))
      && (r.Err? ==> Get(doc, TENANT_KEY).Some? && r.error == DocumentClaims(Get(doc, TENANT_KEY).value))
  {
    if IndexOf(doc, TENANT_KEY).Some? {
      ReplacedKey(doc, TENANT_KEY, Str(workspace));
    } else {
      AppendedKey(doc, Field(TENANT_KEY, Str(workspace)));
    }
    forall key | key != "workspaceId"
      ensures Get(Put(doc, TENANT_KEY, Str(workspace)), key) == Get(doc, key)
    {
      PutElsewhere(doc, TENANT_KEY, Str(workspace), key);
    }
  }

  // ---- The commands ----

  datatype Call =
    | Find(filter: seq<Field>)
    | Count(filter: seq<Field>)
    | InsertMany(docs: seq<seq<Field>>)
    | Update(filter: seq<Field>, change: Json, many: bool)
    | FindOneAndUpdate(filter: seq<Field>, change: Json)
    | Delete(filter: seq<Field>, many: bool)
    | Aggregate(pipeline: seq<Json>)

  datatype Command = Command(name: string, fields: seq<Field>)

  predicate BeginsWithSearch(pipeline: seq<Json>) {
    pipeline != [] && pipeline[0].Obj? && exists i :: 0 <= i < |SEARCH_STAGES| && IndexOf(pipeline[0].fields, SEARCH_STAGES[i]).Some?
  }

  function Send(name: string, collection: string, key: string, value: Json): Command {
    Command(name, [Field(name, Str(collection)), Field(key, value)])
  }

  function ScopeDocs(workspace: string, docs: seq<seq<Field>>): Result<seq<Json>, ScopeError> {
    if docs == [] then Ok([])
    else
      match ScopeInsert(workspace, docs[0])
      case Err(e) => Err(e)
      case Ok(first) =>
        match ScopeDocs(workspace, docs[1..])
        case Err(e) => Err(e)
        case Ok(rest) => Ok([Obj(first)] + rest)
  }

  /** The command a call of the scoped collection sends, if it sends one. */
  function Issue(workspace: string, collection: string, call: Call): Result<Option<Command>, ScopeError> {
    match call
    case InsertMany(docs) =>
      if docs == [] then Ok(None)
      else
        (match ScopeDocs(workspace, docs)
         case Err(e) => Err(e)
         case Ok(stamped) => Ok(Some(Send("insert", collection, "documents", Arr(stamped)))))
    case Aggregate(pipeline) =>
      if BeginsWithSearch(pipeline) then Err(SearchStageRefused)
      else Ok(Some(Send("aggregate", collection, "pipeline", Arr([MatchStage([Field(TENANT_KEY, Str(workspace))])] + pipeline))))
    case _ =>
      match ScopeFilter(workspace, call.filter)
      case Err(e) => Err(e)
      case Ok(filter) => Ok(Some(WithFilter(collection, call, filter)))
  }

  function MatchStage(filter: seq<Field>): Json {
    Obj([Field("$match", Obj(filter))])
  }

  function WithFilter(collection: string, call: Call, filter: seq<Field>): Command
    requires !call.InsertMany? && !call.Aggregate?
  {
    match call
    case Find(_) => Send("find", collection, "filter", Obj(filter))
    case Count(_) => Send("aggregate", collection, "pipeline", Arr([MatchStage(filter), Obj([Field("$group", Null)])]))
    case Update(_, change, many) =>
      Send("update", collection, "updates", Arr([Obj([Field("q", Obj(filter)), Field("u", change), Field("multi", Bool(many))])]))
    case FindOneAndUpdate(_, change) =>
      Command("findAndModify", [Field("findAndModify", Str(collection)), Field("query", Obj(filter)), Field("update", change)])
    case Delete(_, many) =>
      Send("delete", collection, "deletes", Arr([Obj([Field("q", Obj(filter)), Field("limit", Num(if many then 0 else 1))])]))
  }

  lemma {:induction false} DocsAreStamped(workspace: string, docs: seq<seq<Field>>)
    requires ScopeDocs(workspace, docs).Ok?
    ensures EachStamped(Some(Arr(ScopeDocs(workspace, docs).value))) <==> workspace != "" || docs == []
  {
    if docs != [] {
      InsertIsStamped(workspace, docs[0]);
      DocsAreStamped(workspace, docs[1..]);
      var all, rest := ScopeDocs(workspace, docs).value, ScopeDocs(workspace, docs[1..]).value;
      assert Stamped(Arr(all).items[0]) <==> workspace != "";
      assert forall i :: 0 < i < |all| ==> Arr(all).items[i] == Arr(rest).items[i - 1];
    }
  }

  lemma SentFields(name: string, collection: string, key: string, value: Json)
    requires key != name && key != "comment" && name != "comment"
    ensures var fields := Send(name, collection, key, value).fields;
      Get(fields, name) == Some(Str(collection)) && Get(fields, key) == Some(value) && !DeclaresPlatformIntent(fields)
  {
    var fields := Send(name, collection, key, value).fields;
    assert fields[1..] == [Field(key, value)];
    assert IndexOf([Field(key, value)], key) == Some(0);
    assert IndexOf(fields, "comment").None?;
  }

  /** The command passes the guard and selects with this filter alone. */
  ghost predicate Confined(tenancyOf: string -> Tenancy, c: Command, filter: Json) {
    && AnalyzeCommand(tenancyOf, c.name, c.fields).None?
    && Selects(c.name, c.fields, filter) && forall other :: Selects(c.name, c.fields, other) ==> other == filter
  }

  lemma FindIsConfined(tenancyOf: string -> Tenancy, collection: string, filter: Json)
    requires tenancyOf(collection).Tenant? && filter.Obj? && FilterConstrainsWorkspace(filter)
    ensures Confined(tenancyOf, Send("find", collection, "filter", filter), filter)
  {
    SentFields("find", collection, "filter", filter);
  }

  lemma MatchFirstIsConfined(tenancyOf: string -> Tenancy, collection: string, filter: seq<Field>, pipeline: seq<Json>)
    requires tenancyOf(collection).Tenant? && FilterConstrainsWorkspace(Obj(filter))
    ensures Confined(tenancyOf, Send("aggregate", collection, "pipeline", Arr([MatchStage(filter)] + pipeline)), Obj(filter))
  {
    SentFields("aggregate", collection, "pipeline", Arr([MatchStage(filter)] + pipeline));
    assert Get(MatchStage(filter).fields, "$match") == Some(Obj(filter));
  }

  lemma StatementIsConfined(tenancyOf: string -> Tenancy, collection: string, name: string, key: string, statement: seq<Field>, filter: Json)
    requires tenancyOf(collection).Tenant? && FilterConstrainsWorkspace(filter) && Get(statement, "q") == Some(filter)
    requires (name == "update" && key == "updates") || (name == "delete" && key == "deletes")
    ensures Confined(tenancyOf, Send(name, collection, key, Arr([Obj(statement)])), filter)
  {
    SentFields(name, collection, key, Arr([Obj(statement)]));
    assert Arr([Obj(statement)]).items[0] == Obj(statement);
  }

  lemma FindAndModifyIsConfined(tenancyOf: string -> Tenancy, collection: string, filter: seq<Field>, change: Json)
    requires tenancyOf(collection).Tenant? && FilterConstrainsWorkspace(Obj(filter))
    ensures Confined(tenancyOf, WithFilter(collection, FindOneAndUpdate(filter, change), filter), Obj(filter))
  {
    var fields := WithFilter(collection, FindOneAndUpdate(filter, change), filter).fields;
    assert fields[1..] == [Field("query", Obj(filter)), Field("update", change)];
    assert IndexOf(fields[1..], "query") == Some(0);
    assert Get(fields, "findAndModify") == Some(Str(collection)) && Get(fields, "query") == Some(Obj(filter));
    assert IndexOf(fields, "comment").None?;
  }

  lemma FilterCommandIsConfined(tenancyOf: string -> Tenancy, workspace: string, collection: string, call: Call)
    requires tenancyOf(collection).Tenant? && !call.InsertMany? && !call.Aggregate? && ScopeFilter(workspace, call.filter).Ok?
    ensures var scoped := ScopeFilter(workspace, call.filter).value;
      Confined(tenancyOf, WithFilter(collection, call, scoped), Obj(scoped))
  {
    var scoped := ScopeFilter(workspace, call.filter).value;
    ScopedFilterIsConstrained(workspace, call.filter);
    match call
    case Find(_) => FindIsConfined(tenancyOf, collection, Obj(scoped));
    case Count(_) =>
      MatchFirstIsConfined(tenancyOf, collection, scoped, [Obj([Field("$group", Null)])]);
      assert [MatchStage(scoped)] + [Obj([Field("$group", Null)])] == [MatchStage(scoped), Obj([Field("$group", Null)])];
    case Update(_, change, many) =>
      StatementIsConfined(tenancyOf, collection, "update", "updates", [Field("q", Obj(scoped)), Field("u", change), Field("multi", Bool(many))], Obj(scoped));
    case FindOneAndUpdate(_, change) => FindAndModifyIsConfined(tenancyOf, collection, scoped, change);
    case Delete(_, many) =>
      StatementIsConfined(tenancyOf, collection, "delete", "deletes", [Field("q", Obj(scoped)), Field("limit", Num(if many then 0 else 1))], Obj(scoped));
  }

  /** The command selects this document. */
  ghost predicate Touches(sem: Semantics, c: Command, doc: Doc) {
    exists filter :: Selects(c.name, c.fields, filter) && Matches(sem, filter, doc)
  }

  /** A scoped call reaches exactly the documents its own filter matches inside the workspace. */
  lemma ScopedCallIsExact(sem: Semantics, tenancyOf: string -> Tenancy, workspace: string, collection: string, call: Call, doc: Doc)
    requires tenancyOf(collection).Tenant? && !call.InsertMany? && !call.Aggregate?
    ensures var r := Issue(workspace, collection, call);
      && (r.Ok? <==> IndexOf(call.filter, TENANT_KEY).None?)
      && (r.Ok? ==> r.value.Some? && (Touches(sem, r.value.value, doc) <==> Matches(sem, Obj(call.filter), doc) && doc.workspaceId == workspace))
  {
    if ScopeFilter(workspace, call.filter).Ok? {
      var scoped := ScopeFilter(workspace, call.filter).value;
      FilterCommandIsConfined(tenancyOf, workspace, collection, call);
      ScopedFilterIsExact(sem, workspace, call.filter, doc);
      TouchesOnly(sem, tenancyOf, WithFilter(collection, call, scoped), Obj(scoped), doc);
    }
  }

  /** An aggregation is refused exactly when it begins with a search, and otherwise starts from exactly the workspace's documents. */
  lemma ScopedAggregateIsExact(sem: Semantics, tenancyOf: string -> Tenancy, workspace: string, collection: string, pipeline: seq<Json>, doc: Doc)
    requires tenancyOf(collection).Tenant?
    ensures var r := Issue(workspace, collection, Aggregate(pipeline));
      && (r.Ok? <==> !BeginsWithSearch(pipeline))
      && (r.Ok? ==> r.value.Some? && (Touches(sem, r.value.value, doc) <==> doc.workspaceId == workspace))
  {
    if !BeginsWithSearch(pipeline) {
      var own := [Field(TENANT_KEY, Str(workspace))];
      OwnFilterIsExact(sem, workspace, doc);
      MatchFirstIsConfined(tenancyOf, collection, own, pipeline);
      TouchesOnly(sem, tenancyOf, Send("aggregate", collection, "pipeline", Arr([MatchStage(own)] + pipeline)), Obj(own), doc);
    }
  }

  lemma OwnFilterIsExact(sem: Semantics, workspace: string, doc: Doc)
    ensures FilterConstrainsWorkspace(Obj([Field(TENANT_KEY, Str(workspace))]))
    ensures Matches(sem, Obj([Field(TENANT_KEY, Str(workspace))]), doc) <==> doc.workspaceId == workspace
  {
    ScopedFilterIsConstrained(workspace, []);
    ScopedFilterIsExact(sem, workspace, [], doc);
    assert [] + [Field(TENANT_KEY, Str(workspace))] == [Field(TENANT_KEY, Str(workspace))];
  }

  lemma TouchesOnly(sem: Semantics, tenancyOf: string -> Tenancy, c: Command, filter: Json, doc: Doc)
    requires Confined(tenancyOf, c, filter)
    ensures Touches(sem, c, doc) <==> Matches(sem, filter, doc)
  {
  }

  lemma InsertPasses(tenancyOf: string -> Tenancy, workspace: string, collection: string, docs: seq<seq<Field>>)
    requires tenancyOf(collection).Tenant? && docs != [] && ScopeDocs(workspace, docs).Ok?
    ensures var c := Send("insert", collection, "documents", Arr(ScopeDocs(workspace, docs).value));
      AnalyzeCommand(tenancyOf, c.name, c.fields).None? <==> workspace != ""
  {
    DocsAreStamped(workspace, docs);
    SentFields("insert", collection, "documents", Arr(ScopeDocs(workspace, docs).value));
  }

  /** Every command the scoped collection sends passes the guard, except inserts under an empty workspace id. */
  lemma EveryScopedCommandPasses(tenancyOf: string -> Tenancy, workspace: string, collection: string, call: Call)
    requires tenancyOf(collection).Tenant?
    ensures var r := Issue(workspace, collection, call);
      r.Ok? && r.value.Some? ==>
        (AnalyzeCommand(tenancyOf, r.value.value.name, r.value.value.fields).None? <==> !(call.InsertMany? && workspace == ""))
  {
    if Issue(workspace, collection, call).Ok? {
      match call
      case InsertMany(docs) =>
        if docs != [] {
          InsertPasses(tenancyOf, workspace, collection, docs);
        }
      case Aggregate(pipeline) =>
        ScopedFilterIsConstrained(workspace, []);
        MatchFirstIsConfined(tenancyOf, collection, [Field(TENANT_KEY, Str(workspace))], pipeline);
      case _ => FilterCommandIsConfined(tenancyOf, workspace, collection, call);
    }
  }

  // ---- What a scoped call sends besides its filter ----

  /** All documents are sent, in order, each stamped; and nothing is sent if one claims another workspace. */
  lemma {:induction false} DocsAreSent(workspace: string, docs: seq<seq<Field>>)
    ensures var r := ScopeDocs(workspace, docs);
      && (r.Ok? <==> forall i :: 0 <= i < |docs| ==> ScopeInsert(workspace, docs[i]).Ok?)
      && (r.Ok? ==> |r.value| == |docs| && forall i :: 0 <= i < |docs| ==> r.value[i].Obj? && IsStampedFrom(r.value[i].fields, docs[i], workspace))
  {
    if docs != [] {
      InsertIsStamped(workspace, docs[0]);
      DocsAreSent(workspace, docs[1..]);
      if ScopeInsert(workspace, docs[0]).Ok? && ScopeDocs(workspace, docs[1..]).Ok? {
        var all, rest := ScopeDocs(workspace, docs).value, ScopeDocs(workspace, docs[1..]).value;
        forall i | 0 <= i < |docs|
          ensures all[i].Obj? && IsStampedFrom(all[i].fields, docs[i], workspace)
        {
          if i > 0 {
            assert all[i] == rest[i - 1] && docs[i] == docs[1..][i - 1];
          }
        }
      }
    }
  }

  /** The statement asks for this change, of one document or of all that match. */
  ghost predicate Asks(statement: Json, change: Json, many: bool) {
    statement.Obj? && Get(statement.fields, "u") == Some(change) && Get(statement.fields, "multi") == Some(Bool(many))
  }

  /** The statement removes one document, or all that match. */
  ghost predicate Removes(statement: Json, many: bool) {
    statement.Obj? && Get(statement.fields, "limit") == Some(Num(if many then 0 else 1))
  }

  /** The command says what the call asked for: the change, how many documents, the stages after the gate. */
  ghost predicate Conveys(c: Command, call: Call) {
    match call
    case Find(_) => c.name == "find"
    case Count(_) => c.name == "aggregate"
    case InsertMany(_) => c.name == "insert"
    case Update(_, change, many) => c.name == "update" && exists s :: Get(c.fields, "updates") == Some(Arr([s])) && Asks(s, change, many)
    case FindOneAndUpdate(_, change) => c.name == "findAndModify" && Get(c.fields, "update") == Some(change)
    case Delete(_, many) => c.name == "delete" && exists s :: Get(c.fields, "deletes") == Some(Arr([s])) && Removes(s, many)
    case Aggregate(pipeline) => c.name == "aggregate" && exists gate :: Get(c.fields, "pipeline") == Some(Arr([gate] + pipeline))
  }

  lemma UpdateAsks(filter: Json, change: Json, many: bool)
    ensures Asks(Obj([Field("q", filter), Field("u", change), Field("multi", Bool(many))]), change, many)
  {
    var s := [Field("q", filter), Field("u", change), Field("multi", Bool(many))];
    assert s[1..] == [Field("u", change), Field("multi", Bool(many))] && s[1..][1..] == [Field("multi", Bool(many))];
    assert IndexOf(s[1..][1..], "multi") == Some(0) && IndexOf(s[1..], "u") == Some(0);
    assert IndexOf(s[1..], "multi") == Some(1);
  }

  lemma DeleteRemoves(filter: Json, many: bool)
    ensures Removes(Obj([Field("q", filter), Field("limit", Num(if many then 0 else 1))]), many)
  {
    var s := [Field("q", filter), Field("limit", Num(if many then 0 else 1))];
    assert s[1..] == [Field("limit", Num(if many then 0 else 1))];
    assert IndexOf(s[1..], "limit") == Some(0);
  }

  lemma ChangeIsSent(collection: string, filter: Json, change: Json)
    ensures Get([Field("findAndModify", Str(collection)), Field("query", filter), Field("update", change)], "update") == Some(change)
  {
    var s := [Field("findAndModify", Str(collection)), Field("query", filter), Field("update", change)];
    assert s[1..] == [Field("query", filter), Field("update", change)] && s[1..][1..] == [Field("update", change)];
    assert IndexOf(s[1..][1..], "update") == Some(0);
    assert IndexOf(s[1..], "update") == Some(1);
  }

  /** Every command that is sent conveys its call. */
  lemma CallIsConveyed(workspace: string, collection: string, call: Call)
    ensures var r := Issue(workspace, collection, call);
      r.Ok? && r.value.Some? ==> Conveys(r.value.value, call)
    ensures call.InsertMany? && call.docs != [] && Issue(workspace, collection, call).Ok? ==>
      var sent := Issue(workspace, collection, call).value;
      sent.Some? && ScopeDocs(workspace, call.docs).Ok? && Get(sent.value.fields, "documents") == Some(Arr(ScopeDocs(workspace, call.docs).value))
  {
    match call
    case InsertMany(docs) =>
      if ScopeDocs(workspace, docs).Ok? {
        SentFields("insert", collection, "documents", Arr(ScopeDocs(workspace, docs).value));
      }
    case Aggregate(pipeline) =>
      SentFields("aggregate", collection, "pipeline", Arr([MatchStage([Field(TENANT_KEY, Str(workspace))])] + pipeline));
    case _ =>
      if ScopeFilter(workspace, call.filter).Ok? {
        FilterCallIsConveyed(collection, call, ScopeFilter(workspace, call.filter).value);
      }
  }

  lemma FilterCallIsConveyed(collection: string, call: Call, filter: seq<Field>)
    requires !call.InsertMany? && !call.Aggregate?
    ensures Conveys(WithFilter(collection, call, filter), call)
  {
    match call
    case Update(_, change, many) =>
      var s := Obj([Field("q", Obj(filter)), Field("u", change), Field("multi", Bool(many))]);
      UpdateAsks(Obj(filter), change, many);
      SentFields("update", collection, "updates", Arr([s]));
    case Delete(_, many) =>
      var s := Obj([Field("q", Obj(filter)), Field("limit", Num(if many then 0 else 1))]);
      DeleteRemoves(Obj(filter), many);
      SentFields("delete", collection, "deletes", Arr([s]));
    case FindOneAndUpdate(_, change) => ChangeIsSent(collection, Obj(filter), change);
    case _ =>
  }

  // ---- What a scoped write leaves behind ----

  /** What the update operators other than `$set`, and pipelines, make of a workspace field they touch. */
  datatype Effects = Effects(operator: (string, Json, Json) -> Json, pipeline: (Json, Json) -> Json)

  /** The operator writes the workspace field, under its own name or by renaming another field to it. */
  predicate WritesWorkspace(f: Field) {
    f.value.Obj? &&
    (IndexOf(f.value.fields, TENANT_KEY).Some? || (f.key == "$rename" && exists i :: 0 <= i < |f.value.fields| && f.value.fields[i].value == Str(TENANT_KEY)))
  }

  /** The workspace field after one operator of an update. Two operators on one field are an error, so one at most applies. */
  function AfterOperator(eff: Effects, f: Field, current: Json): Json {
    if !WritesWorkspace(f) then current
    else if f.key == "$set" then
      match Get(f.value.fields, TENANT_KEY)
      case Some(v) => v
      case None => current
    else eff.operator(f.key, f.value, current)
  }

  ghost predicate WriteStaysInside(eff: Effects, change: Json, workspace: string) {
    if change.Obj? then forall i :: 0 <= i < |change.fields| ==> AfterOperator(eff, change.fields[i], Str(workspace)) == Str(workspace)
    else eff.pipeline(change, Str(workspace)) == Str(workspace)
  }

  /** No operator writes the workspace field, except a `$set` to the same workspace. */
  predicate LeavesWorkspace(change: Json, workspace: string) {
    change.Obj? && forall i :: 0 <= i < |change.fields| ==>
      !WritesWorkspace(change.fields[i]) || (change.fields[i].key == "$set" && Get(change.fields[i].value.fields, TENANT_KEY) == Some(Str(workspace)))
  }

  /**
   The layer scopes what a write selects and passes the change through unread, so a document stays in its workspace,
   whatever the other operators do, if and only if the change itself leaves the workspace field alone.
   */
  lemma WriteStaysInsideIff(change: Json, workspace: string)
    ensures (forall eff: Effects :: WriteStaysInside(eff, change, workspace)) <==> LeavesWorkspace(change, workspace)
  {
    var clears := Effects((_, _, _) => Null, (_, _) => Null);
    if !LeavesWorkspace(change, workspace) {
      if change.Obj? {
        var i :| 0 <= i < |change.fields| && WritesWorkspace(change.fields[i])
          && !(change.fields[i].key == "$set" && Get(change.fields[i].value.fields, TENANT_KEY) == Some(Str(workspace)));
        assert AfterOperator(clears, change.fields[i], Str(workspace)) != Str(workspace);
      }
      assert !WriteStaysInside(clears, change, workspace);
    }
  }

  /** A scoped update that moves what it selects to another workspace is sent and passes the guard. */
  lemma ScopedUpdateCanMove(eff: Effects, tenancyOf: string -> Tenancy, workspace: string, other: string, collection: string)
    requires tenancyOf(collection).Tenant?
    ensures var moves := Field("$set", Obj([Field(TENANT_KEY, Str(other))]));
      var r := Issue(workspace, collection, Update([], Obj([moves]), true));
      && r.Ok? && r.value.Some? && AnalyzeCommand(tenancyOf, r.value.value.name, r.value.value.fields).None?
      && AfterOperator(eff, moves, Str(workspace)) == Str(other)
  {
    var moves := Field("$set", Obj([Field(TENANT_KEY, Str(other))]));
    assert Get(moves.value.fields, TENANT_KEY) == Some(Str(other));
    EveryScopedCommandPasses(tenancyOf, workspace, collection, Update([], Obj([moves]), true));
  }
}
