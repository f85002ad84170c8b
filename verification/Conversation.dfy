/** The canonical conversation format, and the repair of unanswered tool calls made when a prompt is assembled. */
module Conversation {
  import opened Options
  import opened Seqs

  datatype Role = User | Assistant | Tool | System

  datatype Block =
    | Text(text: string)
    | Image(blobKey: string, mime: string)
    | Document(blobKey: string, mime: string, title: Option<string>)
    | ToolUse(id: string, name: string, input: string)
    | ToolResult(toolUseId: string, content: seq<Block>, isError: bool)
    | Reasoning(summary: Option<string>, redacted: bool)
    | BlobRef(key: string, bytes: nat, mime: string)

  /** A message as a provider adapter takes it. */
  datatype Message = Message(role: Role, content: seq<Block>, artifact: Option<string>)

  /** The ids of the `tool_use` blocks, in order. */
  function Asked(content: seq<Block>): seq<string> {
    if content == [] then []
    else (if content[0].ToolUse? then [content[0].id] else []) + Asked(content[1..])
  }

  /** The ids that the `tool_result` blocks answer. */
  function Given(content: seq<Block>): set<string> {
    set b | b in content && b.ToolResult? :: b.toolUseId
  }

  const UNANSWERED_TOOL_CALL :=
    "This call was not completed: the run ended before it could run. Call it again if the result still matters."

  function Unanswered(id: string): Block {
    ToolResult(id, [Text(UNANSWERED_TOOL_CALL)], true)
  }

  /** The calls of `asking` that `next` does not answer. */
  function Missing(asking: Message, next: Message): seq<string> {
    if asking.role.Assistant? then Filter(Asked(asking.content), id => id !in Given(next.content)) else []
  }

  function Results(ids: seq<string>): seq<Block> {
    seq(|ids|, i requires 0 <= i < |ids| => Unanswered(ids[i]))
  }

  // ---- What the repair computes ----

  /** The message that answers `missing` after `next` was found not to: `next` extended, or a new one before it. */
  function Repaired(next: Message, missing: seq<string>): seq<Message> {
    if missing == [] then []
    else if next.role.Tool? then [next.(content := next.content + Results(missing))]
    else [Message(Tool, Results(missing), None)]
  }

  /** The messages with every call that is not in the last message answered. */
  function Answer(ms: seq<Message>): seq<Message> {
    if |ms| <= 1 then ms
    else
      var missing := Missing(ms[0], ms[1]);
      [ms[0]] + Repaired(ms[1], missing) + Answer(if missing != [] && ms[1].role.Tool? then ms[2..] else ms[1..])
  }

  /** How many results the repair adds. */
  function AnswerCount(ms: seq<Message>): nat {
    if |ms| <= 1 then 0 else |Missing(ms[0], ms[1])| + AnswerCount(ms[1..])
  }

  /** A tool message is passed over, whatever it holds. */
  lemma ToolIsPassed(t: Message, rest: seq<Message>)
    requires t.role.Tool?
    ensures Answer([t] + rest) == [t] + Answer(rest)
    ensures AnswerCount([t] + rest) == AnswerCount(rest)
  {
    if rest != [] {
      assert ([t] + rest)[1..] == rest;
    }
  }

  lemma AnswerHead(ms: seq<Message>)
    requires ms != []
    ensures Answer(ms) != [] && Answer(ms)[0] == ms[0]
  {
  }

  /** The rest of the list after one pass of the loop over its head. */
  function AfterPass(todo: seq<Message>): seq<Message>
    requires |todo| >= 2
  {
    var missing := Missing(todo[0], todo[1]);
    Repaired(todo[1], missing) + if missing != [] && todo[1].role.Tool? then todo[2..] else todo[1..]
  }

  /** One pass moves the head to the finished part. */
  lemma PassIsAnswer(todo: seq<Message>)
    requires |todo| >= 2
    ensures Answer(todo) == [todo[0]] + Answer(AfterPass(todo))
    ensures AnswerCount(todo) == |Missing(todo[0], todo[1])| + AnswerCount(AfterPass(todo))
  {
    var missing := Missing(todo[0], todo[1]);
    if missing == [] {
      assert AfterPass(todo) == todo[1..];
      assert [todo[0]] + [] == [todo[0]];
    } else if todo[1].role.Tool? {
      PassOverwrites(todo, missing);
    } else {
      PassInserts(todo, missing);
    }
  }

  lemma PassOverwrites(todo: seq<Message>, missing: seq<string>)
    requires |todo| >= 2 && missing == Missing(todo[0], todo[1]) && missing != [] && todo[1].role.Tool?
    ensures Answer(todo) == [todo[0]] + Answer(AfterPass(todo))
    ensures AnswerCount(todo) == |missing| + AnswerCount(AfterPass(todo))
  {
    var t, rest := Repaired(todo[1], missing)[0], todo[2..];
    assert AfterPass(todo) == [t] + rest;
    ToolIsPassed(t, rest);
    OverwrittenList(todo, missing, t, rest);
    OverwrittenCount(todo, missing, rest);
  }

  lemma OverwrittenList(todo: seq<Message>, missing: seq<string>, t: Message, rest: seq<Message>)
    requires |todo| >= 2 && missing == Missing(todo[0], todo[1]) && missing != [] && todo[1].role.Tool?
    requires Repaired(todo[1], missing) == [t] && rest == todo[2..]
    ensures Answer(todo) == [todo[0]] + ([t] + Answer(rest))
  {
    RepairedThen(todo[0], t, Answer(rest));
  }

  lemma OverwrittenCount(todo: seq<Message>, missing: seq<string>, rest: seq<Message>)
    requires |todo| >= 2 && missing == Missing(todo[0], todo[1]) && todo[1].role.Tool? && rest == todo[2..]
    ensures AnswerCount(todo) == |missing| + AnswerCount(rest)
  {
    assert todo[1..] == [todo[1]] + rest;
    ToolIsPassed(todo[1], rest);
  }

  lemma InsertedList(todo: seq<Message>, missing: seq<string>, t: Message, rest: seq<Message>)
    requires |todo| >= 2 && missing == Missing(todo[0], todo[1]) && missing != [] && !todo[1].role.Tool?
    requires Repaired(todo[1], missing) == [t] && rest == todo[1..]
    ensures Answer(todo) == [todo[0]] + ([t] + Answer(rest))
    ensures AnswerCount(todo) == |missing| + AnswerCount(rest)
  {
    RepairedThen(todo[0], t, Answer(rest));
  }

  lemma RepairedThen(m: Message, t: Message, rest: seq<Message>)
    ensures [m] + [t] + rest == [m] + ([t] + rest)
  {
  }

  lemma PassInserts(todo: seq<Message>, missing: seq<string>)
    requires |todo| >= 2 && missing == Missing(todo[0], todo[1]) && missing != [] && !todo[1].role.Tool?
    ensures Answer(todo) == [todo[0]] + Answer(AfterPass(todo))
    ensures AnswerCount(todo) == |missing| + AnswerCount(AfterPass(todo))
  {
    var t, rest := Repaired(todo[1], missing)[0], todo[1..];
    InsertedList(todo, missing, t, rest);
    ToolIsPassed(t, rest);
    assert AfterPass(todo) == [t] + rest;
  }

  /** Where the loop stands at index i: the part before i is final. */
  ghost predicate AtIndex(messages: seq<Message>, ms: seq<Message>, i: int, answered: nat) {
    && 0 <= i <= |ms|
    && ms[..i] + Answer(ms[i..]) == Answer(messages)
    && answered + AnswerCount(ms[i..]) == AnswerCount(messages)
  }

  lemma NextIndex(messages: seq<Message>, ms: seq<Message>, i: int, answered: nat, ms': seq<Message>)
    requires AtIndex(messages, ms, i, answered) && i < |ms| - 1
    requires ms' == ms[..i + 1] + AfterPass(ms[i..])
    ensures AtIndex(messages, ms', i + 1, answered + |Missing(ms[i], ms[i + 1])|)
  {
    var todo := ms[i..];
    PassIsAnswer(todo);
    JoinAt(ms, ms', i, AfterPass(todo));
    RegroupAnswer(ms[..i], ms[i], Answer(AfterPass(todo)));
  }

  lemma JoinAt(ms: seq<Message>, ms': seq<Message>, i: int, after: seq<Message>)
    requires 0 <= i < |ms| && ms' == ms[..i + 1] + after
    ensures ms'[i + 1..] == after && ms'[..i + 1] == ms[..i] + [ms[i]]
  {
  }

  lemma RegroupAnswer(before: seq<Message>, m: Message, after: seq<Message>)
    ensures before + ([m] + after) == before + [m] + after
  {
  }

  /**
   `answerOrphanedToolCalls`: one pass over the list, overwriting or inserting the message after an
   unanswered request.
   */
  method AnswerOrphanedToolCalls(messages: seq<Message>) returns (ms: seq<Message>, answered: nat)
    ensures ms == Answer(messages)
    ensures answered == AnswerCount(messages)
  {
    ms, answered := messages, 0;
    var i := 0;
    assert ms[..0] + Answer(ms[0..]) == Answer(messages) && ms[0..] == ms;
    while i < |ms| - 1
      invariant AtIndex(messages, ms, i, answered)
      decreases 2 * (|ms| - i) - (if i < |ms| && ms[i].role.Tool? then 1 else 0)
    {
      var missing := Missing(ms[i], ms[i + 1]);
      ghost var before := ms;
      if missing != [] {
        ms := ReplaceNext(ms, i, missing);
      } else {
        assert ms == ms[..i + 1] + AfterPass(ms[i..]);
      }
      NextIndex(messages, before, i, answered, ms);
      answered := answered + |missing|;
      i := i + 1;
    }
    assert Answer(ms[i..]) == ms[i..];
    assert ms[..i] + ms[i..] == ms;
  }

  /** The two ways the pass changes the list: overwrite the tool message after i, or splice one in. */
  method ReplaceNext(ms: seq<Message>, i: nat, missing: seq<string>) returns (out: seq<Message>)
    requires i < |ms| - 1 && missing == Missing(ms[i], ms[i + 1]) && missing != []
    ensures out == ms[..i + 1] + AfterPass(ms[i..])
    ensures out[i + 1].role.Tool? && |out| == |ms| + if ms[i + 1].role.Tool? then 0 else 1
  {
    var next := ms[i + 1];
    if next.role.Tool? {
      out := ms[i + 1 := next.(content := next.content + Results(missing))];
      assert ms[i..][2..] == ms[i + 2..];
    } else {
      out := ms[..i + 1] + [Message(Tool, Results(missing), None)] + ms[i + 1..];
      assert ms[i..][1..] == ms[i + 1..];
    }
  }

  // ---- Growing histories ----

  /** Answering a prefix yields a prefix of answering the whole. */
  lemma {:induction false} AnswerIsMonotone(ms: seq<Message>, more: seq<Message>)
    ensures Answer(ms) <= Answer(ms + more)
    decreases |ms|
  {
    if |ms| == 1 && more != [] {
      AnswerHead(ms + more);
    } else if |ms| >= 2 {
      var whole := ms + more;
      var missing := Missing(ms[0], ms[1]);
      assert whole[0] == ms[0] && whole[1] == ms[1];
      assert whole[1..] == ms[1..] + more && whole[2..] == ms[2..] + more;
      AnswerIsMonotone(if missing != [] && ms[1].role.Tool? then ms[2..] else ms[1..], more);
    } else if ms == [] {
      assert Answer(ms) == [];
    } else {
      assert ms + more == ms;
    }
  }

  // ---- Every call answered in the very next message ----

  /** The next message answers every call of this one. */
  predicate AnsweredBy(asking: Message, next: Message) {
    Missing(asking, next) == []
  }

  ghost predicate Paired(ms: seq<Message>) {
    forall i :: 0 <= i < |ms| - 1 ==> AnsweredBy(ms[i], ms[i + 1])
  }

  /**
   The one history the repair cannot mend: a message that is not a tool message answers some of the calls
   before it but not all. The results added go in a new message in between, and cut the others off.
   */
  predicate SplitsAnswers(asking: Message, next: Message) {
    && asking.role.Assistant? && !next.role.Tool?
    && Missing(asking, next) != []
    && exists id :: id in Asked(asking.content) && id in Given(next.content)
  }

  ghost predicate NoSplitAnswers(ms: seq<Message>) {
    forall i :: 0 <= i < |ms| - 1 ==> !SplitsAnswers(ms[i], ms[i + 1])
  }

  lemma GivenResults(ids: seq<string>)
    ensures Given(Results(ids)) == set id | id in ids
  {
    forall id | id in ids
      ensures id in Given(Results(ids))
    {
      var i :| 0 <= i < |ids| && ids[i] == id;
      assert Results(ids)[i] == Unanswered(id);
    }
  }

  lemma MissingNone(asking: Message, next: Message)
    ensures AnsweredBy(asking, next) <==>
      (asking.role.Assistant? ==> forall id :: id in Asked(asking.content) ==> id in Given(next.content))
  {
    if asking.role.Assistant? {
      var unmet := Missing(asking, next);
      assert forall id :: id in unmet <==> id in Asked(asking.content) && id !in Given(next.content);
      if unmet != [] {
        assert unmet[0] in unmet;
      }
    }
  }

  /** The repaired message answers the request before it exactly when the answers were not split. */
  lemma RepairAnswers(asking: Message, next: Message)
    requires Missing(asking, next) != []
    ensures AnsweredBy(asking, Repaired(next, Missing(asking, next))[0]) <==> !SplitsAnswers(asking, next)
  {
    var missing := Missing(asking, next);
    var repaired := Repaired(next, missing)[0];
    GivenResults(missing);
    MissingNone(asking, repaired);
    forall id
      ensures id in missing <==> id in Asked(asking.content) && id !in Given(next.content)
    {
    }
    if next.role.Tool? {
      assert Given(repaired.content) == Given(next.content) + Given(Results(missing));
    }
  }

  lemma PairedCons(m: Message, rest: seq<Message>)
    ensures Paired([m] + rest) <==> Paired(rest) && (rest != [] ==> AnsweredBy(m, rest[0]))
  {
    var ms := [m] + rest;
    if Paired(ms) {
      forall i | 0 <= i < |rest| - 1
        ensures AnsweredBy(rest[i], rest[i + 1])
      {
        assert ms[i + 1] == rest[i] && ms[i + 2] == rest[i + 1];
      }
      if rest != [] {
        assert AnsweredBy(ms[0], ms[1]);
      }
    }
  }

  lemma NoSplitCons(m: Message, rest: seq<Message>)
    ensures NoSplitAnswers([m] + rest) <==> NoSplitAnswers(rest) && (rest != [] ==> !SplitsAnswers(m, rest[0]))
  {
    var ms := [m] + rest;
    if NoSplitAnswers(ms) {
      forall i | 0 <= i < |rest| - 1
        ensures !SplitsAnswers(rest[i], rest[i + 1])
      {
        assert ms[i + 1] == rest[i] && ms[i + 2] == rest[i + 1];
      }
      if rest != [] {
        assert !SplitsAnswers(ms[0], ms[1]);
      }
    }
  }

  /** The case of a repaired message: what follows it is judged on its own. */
  lemma RepairedPairs(asking: Message, next: Message, rest: seq<Message>)
    requires Missing(asking, next) != []
    ensures Paired([asking] + Repaired(next, Missing(asking, next)) + rest) <==> !SplitsAnswers(asking, next) && Paired(rest)
  {
    var t := Repaired(next, Missing(asking, next))[0];
    assert [asking] + [t] + rest == [asking] + ([t] + rest);
    PairedCons(asking, [t] + rest);
    PairedCons(t, rest);
    RepairAnswers(asking, next);
  }

  lemma NoSplitAfterTool(t: Message, rest: seq<Message>)
    requires t.role.Tool?
    ensures NoSplitAnswers([t] + rest) <==> NoSplitAnswers(rest)
  {
    NoSplitCons(t, rest);
  }

  /** What is left to repair after the head. */
  function Rest(ms: seq<Message>): seq<Message>
    requires |ms| >= 2
  {
    if Missing(ms[0], ms[1]) != [] && ms[1].role.Tool? then ms[2..] else ms[1..]
  }

  lemma NoSplitTail(ms: seq<Message>)
    requires |ms| >= 2 && ms[1].role.Tool?
    ensures NoSplitAnswers(ms[1..]) <==> NoSplitAnswers(ms[2..])
  {
    assert ms[1..] == [ms[1]] + ms[2..];
    NoSplitAfterTool(ms[1], ms[2..]);
  }

  lemma NoSplitRest(ms: seq<Message>)
    requires |ms| >= 2
    ensures NoSplitAnswers(ms) <==> NoSplitAnswers(Rest(ms)) && !SplitsAnswers(ms[0], ms[1])
  {
    assert ms == [ms[0]] + ms[1..];
    NoSplitCons(ms[0], ms[1..]);
    if ms[1].role.Tool? {
      NoSplitTail(ms);
    }
  }

  lemma PairedPlain(m: Message, next: Message, rest: seq<Message>)
    requires Missing(m, next) == [] && rest != [] && rest[0] == next
    ensures Paired([m] + rest) <==> Paired(rest)
  {
    PairedCons(m, rest);
  }

  lemma PairedRest(ms: seq<Message>)
    requires |ms| >= 2
    ensures Paired(Answer(ms)) <==> Paired(Answer(Rest(ms))) && !SplitsAnswers(ms[0], ms[1])
  {
    if Missing(ms[0], ms[1]) == [] {
      PairedAfterPlain(ms);
    } else {
      PairedAfterRepair(ms);
    }
  }

  lemma PairedAfterPlain(ms: seq<Message>)
    requires |ms| >= 2 && Missing(ms[0], ms[1]) == []
    ensures Paired(Answer(ms)) <==> Paired(Answer(Rest(ms)))
    ensures !SplitsAnswers(ms[0], ms[1])
  {
    var out := Answer(ms[1..]);
    AnswerHead(ms[1..]);
    assert Answer(ms) == [ms[0]] + out;
    PairedPlain(ms[0], ms[1], out);
  }

  lemma PairedAfterRepair(ms: seq<Message>)
    requires |ms| >= 2 && Missing(ms[0], ms[1]) != []
    ensures Paired(Answer(ms)) <==> Paired(Answer(Rest(ms))) && !SplitsAnswers(ms[0], ms[1])
  {
    var out := Answer(Rest(ms));
    assert Answer(ms) == [ms[0]] + Repaired(ms[1], Missing(ms[0], ms[1])) + out;
    RepairedPairs(ms[0], ms[1], out);
  }

  /** After the repair every call is answered in the very next message if and only if no answers were split. */
  lemma {:induction false} AnswerPairs(ms: seq<Message>)
    ensures Paired(Answer(ms)) <==> NoSplitAnswers(ms)
    decreases |ms|
  {
    if |ms| >= 2 {
      AnswerPairs(Rest(ms));
      NoSplitRest(ms);
      PairedRest(ms);
    }
  }

  /** A list in which everything is answered is left as it is, and nothing is counted; otherwise something is. */
  lemma {:induction false} AnswerOfPaired(ms: seq<Message>)
    ensures Answer(ms) == ms <==> Paired(ms)
    ensures AnswerCount(ms) == 0 <==> Paired(ms)
    decreases |ms|
  {
    if |ms| >= 2 {
      assert ms == [ms[0]] + ms[1..] && ms[1..][0] == ms[1];
      PairedCons(ms[0], ms[1..]);
      AnswerOfPaired(ms[1..]);
      if Missing(ms[0], ms[1]) != [] {
        AnswerChanges(ms);
      } else {
        assert [ms[0]] + [] == [ms[0]];
        assert Answer(ms)[1..] == Answer(ms[1..]);
      }
    }
  }

  lemma AnswerChanges(ms: seq<Message>)
    requires |ms| >= 2 && Missing(ms[0], ms[1]) != []
    ensures Answer(ms) != ms
  {
    var missing := Missing(ms[0], ms[1]);
    var t := Repaired(ms[1], missing)[0];
    assert Answer(ms)[1] == t;
    if ms[1].role.Tool? {
      assert |t.content| == |ms[1].content| + |missing|;
    }
  }

  /** A second pass changes nothing, and adds no result, exactly when no answers were split. */
  lemma SecondPassAddsNothing(ms: seq<Message>)
    ensures Answer(Answer(ms)) == Answer(ms) <==> NoSplitAnswers(ms)
    ensures AnswerCount(Answer(ms)) == 0 <==> NoSplitAnswers(ms)
  {
    AnswerPairs(ms);
    AnswerOfPaired(Answer(ms));
  }

  /** A history whose results sit in tool messages is never split. */
  lemma ResultsInToolMessagesAreNotSplit(ms: seq<Message>)
    requires forall i :: 0 <= i < |ms| && !ms[i].role.Tool? ==> Given(ms[i].content) == {}
    ensures NoSplitAnswers(ms)
  {
  }

  /** A split history and what happens to it: the call that was answered is cut off from its result. */
  lemma SplitAnswersStaySplit()
    ensures !Paired(Answer([
      Message(Assistant, [ToolUse("a", "t", ""), ToolUse("b", "t", "")], None),
      Message(User, [ToolResult("a", [], false)], None)]))
  {
    var asking := Message(Assistant, [ToolUse("a", "t", ""), ToolUse("b", "t", "")], None);
    var next := Message(User, [ToolResult("a", [], false)], None);
    var ms := [asking, next];
    assert asking.content[1..] == [ToolUse("b", "t", "")];
    assert Asked(asking.content) == ["a", "b"];
    assert next.content[0] in next.content;
    assert "a" in Given(next.content) && "b" !in Given(next.content);
    MissingNone(asking, next);
    assert "b" in Asked(asking.content);
    assert SplitsAnswers(ms[0], ms[1]);
    AnswerPairs(ms);
  }

  // ---- Nothing lost, nothing invented ----

  /** One change to the list: results appended to the next message, or a tool message of results before it. */
  datatype Edit = Append(ids: seq<string>) | Insert(ids: seq<string>)

  predicate Editable(ms: seq<Message>, edits: seq<Edit>) {
    if edits == [] then ms == []
    else if edits[0].Insert? then Editable(ms, edits[1..])
    else ms != [] && Editable(ms[1..], edits[1..])
  }

  function ApplyEdits(ms: seq<Message>, edits: seq<Edit>): seq<Message>
    requires Editable(ms, edits)
  {
    if edits == [] then []
    else if edits[0].Insert? then [Message(Tool, Results(edits[0].ids), None)] + ApplyEdits(ms, edits[1..])
    else [ms[0].(content := ms[0].content + Results(edits[0].ids))] + ApplyEdits(ms[1..], edits[1..])
  }

  /** Taking the added results out again. */
  function Undo(out: seq<Message>, edits: seq<Edit>): seq<Message> {
    if edits == [] || out == [] then []
    else if edits[0].Insert? then Undo(out[1..], edits[1..])
    else
      var kept := |out[0].content| - |edits[0].ids|;
      [out[0].(content := if kept >= 0 then out[0].content[..kept] else [])] + Undo(out[1..], edits[1..])
  }

  function ResultsAdded(edits: seq<Edit>): nat {
    if edits == [] then 0 else |edits[0].ids| + ResultsAdded(edits[1..])
  }

  /** Edits lose nothing: the original comes back when they are undone. */
  lemma {:induction false} UndoRestores(ms: seq<Message>, edits: seq<Edit>)
    requires Editable(ms, edits)
    ensures Undo(ApplyEdits(ms, edits), edits) == ms
    decreases |edits|
  {
    if edits != [] {
      var out := ApplyEdits(ms, edits);
      if edits[0].Insert? {
        UndoRestores(ms, edits[1..]);
        assert out[1..] == ApplyEdits(ms, edits[1..]);
      } else {
        UndoRestores(ms[1..], edits[1..]);
        assert out[1..] == ApplyEdits(ms[1..], edits[1..]);
        assert (ms[0].content + Results(edits[0].ids))[..|ms[0].content|] == ms[0].content;
      }
    }
  }

  /** The edits the repair makes. */
  function EditsOf(ms: seq<Message>): seq<Edit> {
    if ms == [] then []
    else if |ms| == 1 then [Append([])]
    else
      var missing := Missing(ms[0], ms[1]);
      if missing == [] then [Append([])] + EditsOf(ms[1..])
      else if ms[1].role.Tool? then [Append([]), Append(missing)] + EditsOf(ms[2..])
      else [Append([]), Insert(missing)] + EditsOf(ms[1..])
  }

  lemma EditNothing(m: Message, rest: seq<Message>, edits: seq<Edit>)
    requires Editable(rest, edits)
    ensures Editable([m] + rest, [Append([])] + edits)
    ensures ApplyEdits([m] + rest, [Append([])] + edits) == [m] + ApplyEdits(rest, edits)
    ensures ResultsAdded([Append([])] + edits) == ResultsAdded(edits)
  {
    assert ([Append([])] + edits)[1..] == edits && ([m] + rest)[1..] == rest;
    assert m.content + Results([]) == m.content;
  }

  lemma EditNext(m: Message, rest: seq<Message>, e: Edit, edits: seq<Edit>)
    requires Editable(if e.Insert? then [m] + rest else rest, edits)
    ensures Editable([m] + rest, [e] + edits)
    ensures ApplyEdits([m] + rest, [e] + edits) ==
      if e.Insert? then [Message(Tool, Results(e.ids), None)] + ApplyEdits([m] + rest, edits)
      else [m.(content := m.content + Results(e.ids))] + ApplyEdits(rest, edits)
    ensures ResultsAdded([e] + edits) == |e.ids| + ResultsAdded(edits)
  {
    assert ([e] + edits)[1..] == edits && ([m] + rest)[1..] == rest;
  }

  /** The edits describe the repair of this list. */
  ghost predicate EditsFit(ms: seq<Message>) {
    && Editable(ms, EditsOf(ms)) && ApplyEdits(ms, EditsOf(ms)) == Answer(ms)
    && ResultsAdded(EditsOf(ms)) == AnswerCount(ms)
  }

  lemma EditsFitPlain(ms: seq<Message>)
    requires |ms| >= 2 && Missing(ms[0], ms[1]) == [] && EditsFit(ms[1..])
    ensures EditsFit(ms)
  {
    assert ms == [ms[0]] + ms[1..];
    EditNothing(ms[0], ms[1..], EditsOf(ms[1..]));
    assert Answer(ms) == [ms[0]] + Answer(ms[1..]);
  }

  lemma EditsFitAppend(ms: seq<Message>)
    requires |ms| >= 2 && Missing(ms[0], ms[1]) != [] && ms[1].role.Tool? && EditsFit(ms[2..])
    ensures EditsFit(ms)
  {
    var missing, rest, edits := Missing(ms[0], ms[1]), ms[2..], EditsOf(ms[2..]);
    EditNext(ms[1], rest, Append(missing), edits);
    EditNothing(ms[0], [ms[1]] + rest, [Append(missing)] + edits);
    assert ms == [ms[0]] + ([ms[1]] + rest) && ms[1..] == [ms[1]] + rest;
    assert EditsOf(ms) == [Append([])] + ([Append(missing)] + edits);
    OverwrittenList(ms, missing, Repaired(ms[1], missing)[0], rest);
    OverwrittenCount(ms, missing, rest);
  }

  lemma EditsFitInsert(ms: seq<Message>)
    requires |ms| >= 2 && Missing(ms[0], ms[1]) != [] && !ms[1].role.Tool? && EditsFit(ms[1..])
    ensures EditsFit(ms)
  {
    var missing, rest, edits := Missing(ms[0], ms[1]), ms[1..], EditsOf(ms[1..]);
    assert rest == [ms[1]] + ms[2..] && ms == [ms[0]] + rest;
    EditNext(ms[1], ms[2..], Insert(missing), edits);
    EditNothing(ms[0], rest, [Insert(missing)] + edits);
    assert EditsOf(ms) == [Append([])] + ([Insert(missing)] + edits);
    InsertedList(ms, missing, Repaired(ms[1], missing)[0], rest);
  }

  lemma {:induction false} EditsAlwaysFit(ms: seq<Message>)
    ensures EditsFit(ms)
    decreases |ms|
  {
    if |ms| == 1 {
      EditNothing(ms[0], [], []);
      assert [Append([])] + [] == [Append([])] && [ms[0]] + [] == ms;
    } else if |ms| >= 2 {
      if Missing(ms[0], ms[1]) == [] {
        EditsAlwaysFit(ms[1..]);
        EditsFitPlain(ms);
      } else if ms[1].role.Tool? {
        EditsAlwaysFit(ms[2..]);
        EditsFitAppend(ms);
      } else {
        EditsAlwaysFit(ms[1..]);
        EditsFitInsert(ms);
      }
    }
  }

  /**
   The repair only adds: its result is the original under edits that append or insert error results, undoing
   them gives the original back block for block, and the number returned is the number of results added.
   */
  lemma AnswerOnlyAdds(ms: seq<Message>)
    ensures Editable(ms, EditsOf(ms)) && ApplyEdits(ms, EditsOf(ms)) == Answer(ms)
    ensures Undo(Answer(ms), EditsOf(ms)) == ms
    ensures ResultsAdded(EditsOf(ms)) == AnswerCount(ms)
  {
    EditsAlwaysFit(ms);
    UndoRestores(ms, EditsOf(ms));
  }
}
