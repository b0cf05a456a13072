/** Model requests: their messages and tools, the documents they are, and changes to them that can be
    undone. */
module Requests {
  import opened Wrappers
  import opened JsonTree

  datatype Message = Message(role: string, callId: Option<string>, content: string,
                             other: map<string, Json>)

  datatype Tool = Tool(name: string, description: string, other: map<string, Json>)

  datatype Request = Request(messages: seq<Message>, tools: seq<Tool>, other: map<string, Json>)

  function Names(tools: seq<Tool>): set<string> {
    set i | 0 <= i < |tools| :: tools[i].name
  }

  // ---------- the request as a document ----------

  function MessageJson(m: Message): Json {
    var id := if m.callId.Some? then map["tool_call_id" := Text(m.callId.value)] else map[];
    Obj((m.other + id + map["role" := Text(m.role)])["content" := Text(m.content)])
  }

  function ToolJson(t: Tool): Json {
    var function_ := t.other + map["name" := Text(t.name), "description" := Text(t.description)];
    Obj(map["type" := Text("function"), "function" := Obj(function_)])
  }

  function MessagesJson(messages: seq<Message>): (r: seq<Json>)
    ensures |r| == |messages| && forall i | 0 <= i < |r| :: r[i] == MessageJson(messages[i])
  {
    seq(|messages|, i requires 0 <= i < |messages| => MessageJson(messages[i]))
  }

  function ToolsJson(tools: seq<Tool>): seq<Json> {
    seq(|tools|, i requires 0 <= i < |tools| => ToolJson(tools[i]))
  }

  function RequestJson(r: Request): Json {
    Obj(r.other["tools" := Arr(ToolsJson(r.tools))]["messages" := Arr(MessagesJson(r.messages))])
  }

  function WithContent(r: Request, i: nat, content: string): Request
    requires i < |r.messages|
  {
    r.(messages := r.messages[i := r.messages[i].(content := content)])
  }

  function ContentLocation(i: nat): Path {
    ["messages", Decimal(i), "content"]
  }

  function ContentPointer(i: nat): string {
    Pointer(ContentLocation(i))
  }

  lemma {:induction false} DecimalPlain(n: nat)
    ensures Plain(Decimal(n))
  {
    if n >= 10 {
      DecimalPlain(n / 10);
    }
  }

  lemma ContentSegments(i: nat)
    ensures Segments(ContentPointer(i)) == ContentLocation(i)
  {
    var path := ContentLocation(i);
    DecimalPlain(i);
    assert Plain("messages") && Plain("content");
    assert path[1..] == [Decimal(i), "content"] && path[1..][1..] == ["content"];
    assert ["content"][1..] == [];
    assert AllPlain(["content"]);
    assert AllPlain([Decimal(i), "content"]);
    SegmentsOfPointer(path);
  }

  /** The content of a message, read in the document. */
  lemma ContentAt(r: Request, i: nat)
    requires i < |r.messages|
    ensures At(RequestJson(r), ContentLocation(i)) == Some(Text(r.messages[i].content))
  {
    var path, messages := ContentLocation(i), Arr(MessagesJson(r.messages));
    PositionOfDecimal(i);
    assert path[1..] == [Decimal(i), "content"] && path[1..][1..] == ["content"];
    assert ["content"][1..] == [];
    assert Child(RequestJson(r), "messages") == Some(messages);
    assert Child(messages, Decimal(i)) == Some(MessageJson(r.messages[i]));
    assert At(MessageJson(r.messages[i]), ["content"]) == Some(Text(r.messages[i].content));
    assert At(messages, path[1..]) == Some(Text(r.messages[i].content));
  }

  lemma MessageWrite(m: Message, content: string)
    ensures Write(MessageJson(m), ["content"], Text(content)) ==
            Some(MessageJson(m.(content := content)))
  {
    assert MessageJson(m).fields["content" := Text(content)] ==
           MessageJson(m.(content := content)).fields;
  }

  lemma MessagesWrite(messages: seq<Message>, i: nat, content: string)
    requires i < |messages|
    ensures Write(Arr(MessagesJson(messages)), [Decimal(i), "content"], Text(content)) ==
            Some(Arr(MessagesJson(messages[i := messages[i].(content := content)])))
  {
    var m := messages[i].(content := content);
    var path, all := [Decimal(i), "content"], MessagesJson(messages);
    PositionOfDecimal(i);
    MessageWrite(messages[i], content);
    assert path[1..] == ["content"];
    assert Child(Arr(all), path[0]) == Some(MessageJson(messages[i]));
    assert SetChild(Arr(all), path[0], MessageJson(m)) == Some(Arr(all[i := MessageJson(m)]));
    assert all[i := MessageJson(m)] == MessagesJson(messages[i := m]);
  }

  /** Writing it there is writing it in the message. */
  lemma ContentWrite(r: Request, i: nat, content: string)
    requires i < |r.messages|
    ensures Write(RequestJson(r), ContentLocation(i), Text(content)) ==
            Some(RequestJson(WithContent(r, i, content)))
  {
    var path, after := ContentLocation(i), WithContent(r, i, content);
    var messages := Arr(MessagesJson(after.messages));
    MessagesWrite(r.messages, i, content);
    assert path[1..] == [Decimal(i), "content"];
    assert Child(RequestJson(r), path[0]) == Some(Arr(MessagesJson(r.messages)));
    assert SetChild(RequestJson(r), path[0], messages) == Some(RequestJson(after)) by {
      assert RequestJson(r).fields["messages" := messages] == RequestJson(after).fields;
    }
  }

  lemma SameContent(r: Request, i: nat)
    requires i < |r.messages|
    ensures WithContent(r, i, r.messages[i].content) == r
  {
    assert r.messages[i := r.messages[i]] == r.messages;
  }

  // ---------- changes ----------

  /** A recorded change: of a text at a path, or a tool appended behind the others. */
  datatype Change = Change(path: string, before: string, after: string) | Appended(tool: Tool)

  function DescriptionLocation(i: nat): Path {
    ["tools", Decimal(i), "function", "description"]
  }

  function DescriptionPointer(i: nat): string {
    Pointer(DescriptionLocation(i))
  }

  lemma DescriptionSegments(i: nat)
    ensures Segments(DescriptionPointer(i)) == DescriptionLocation(i)
  {
    var path := DescriptionLocation(i);
    DecimalPlain(i);
    assert Plain("tools") && Plain("function") && Plain("description");
    assert path[1..] == [Decimal(i), "function", "description"];
    assert path[1..][1..] == ["function", "description"];
    assert ["function", "description"][1..] == ["description"] && ["description"][1..] == [];
    assert AllPlain(["description"]) && AllPlain(["function", "description"]);
    assert AllPlain(path[1..]);
    SegmentsOfPointer(path);
  }

  /** Undoing one change by its path; None where the original raises. */
  function UndoOne(r: Request, c: Change): Option<Request> {
    if c.Appended? then
      if r.tools == [] then None else Some(r.(tools := r.tools[..|r.tools| - 1]))
    else
      var parts := Segments(c.path);
      if |parts| < 2 then None
      else
        match Position(parts[1])
        case None => None
        case Some(i) =>
          if parts[0] == "tools" then
            if i >= |r.tools| then None
            else Some(r.(tools := r.tools[i := r.tools[i].(description := c.before)]))
          else if i >= |r.messages| then None
          else Some(WithContent(r, i, c.before))
  }

  /** Undoing the last change first. */
  function Undo(r: Request, changes: seq<Change>): Option<Request>
    decreases |changes|
  {
    if changes == [] then Some(r)
    else
      match UndoOne(r, changes[|changes| - 1])
      case None => None
      case Some(r') => Undo(r', changes[..|changes| - 1])
  }

  function Updated(current: map<string, string>, t: Tool): Tool {
    if t.name in current then t.(description := current[t.name]) else t
  }

  /** The tools after the first `k` of them have been updated. */
  function UpdatedTools(current: map<string, string>, tools: seq<Tool>, k: nat): (r: seq<Tool>)
    requires k <= |tools|
    ensures |r| == |tools|
    ensures forall i | 0 <= i < |tools| :: r[i] == if i < k then Updated(current, tools[i]) else tools[i]
  {
    if k == 0 then tools
    else UpdatedTools(current, tools, k - 1)[k - 1 := Updated(current, tools[k - 1])]
  }

  /** A change is recorded for this tool: its description is in the catalogue and, unless all of these
      are recorded, differs from it. */
  predicate Records(current: map<string, string>, t: Tool, all: bool) {
    t.name in current && (all || t.description != current[t.name])
  }

  /** The changes recorded for the first `k` tools. */
  function ToolChanges(current: map<string, string>, tools: seq<Tool>, k: nat, all: bool): seq<Change>
    requires k <= |tools|
  {
    if k == 0 then []
    else
      var t := tools[k - 1];
      ToolChanges(current, tools, k - 1, all) +
      if Records(current, t, all) then [Change(DescriptionPointer(k - 1), t.description, current[t.name])] else []
  }

  lemma UndoLast(r: Request, changes: seq<Change>, c: Change)
    ensures Undo(r, changes + [c]) ==
            match UndoOne(r, c)
            case None => None
            case Some(r') => Undo(r', changes)
  {
    assert (changes + [c])[..|changes|] == changes;
  }

  /** The last change undone is the description of its tool. */
  lemma UndoDescription(r: Request, i: nat, before: string, after: string)
    requires i < |r.tools|
    ensures UndoOne(r, Change(DescriptionPointer(i), before, after)) ==
            Some(r.(tools := r.tools[i := r.tools[i].(description := before)]))
  {
    DescriptionSegments(i);
    PositionOfDecimal(i);
  }

  lemma UndoContent(r: Request, i: nat, before: string, after: string)
    requires i < |r.messages|
    ensures UndoOne(r, Change(ContentPointer(i), before, after)) == Some(WithContent(r, i, before))
  {
    ContentSegments(i);
    PositionOfDecimal(i);
    assert "messages"[0] != "tools"[0];
  }

  /** Undoing a list is undoing its end, then its beginning. */
  lemma {:induction false} UndoConcat(r: Request, first: seq<Change>, later: seq<Change>)
    ensures Undo(r, first + later) ==
            match Undo(r, later)
            case None => None
            case Some(r') => Undo(r', first)
    decreases |later|
  {
    if later == [] {
      assert first + later == first;
    } else {
      var front, last := later[..|later| - 1], later[|later| - 1];
      assert first + later == (first + front) + [last] && later == front + [last];
      UndoLast(r, first + front, last);
      UndoLast(r, front, last);
      if UndoOne(r, last).Some? {
        UndoConcat(UndoOne(r, last).value, first, front);
      }
    }
  }

  /** Undoing the change of the last tool described. */
  lemma UndoToolStep(current: map<string, string>, source: Request, k: nat, all: bool)
    requires k < |source.tools|
    ensures Undo(source.(tools := UpdatedTools(current, source.tools, k + 1)),
                 ToolChanges(current, source.tools, k + 1, all)) ==
            Undo(source.(tools := UpdatedTools(current, source.tools, k)),
                 ToolChanges(current, source.tools, k, all))
  {
    var tools, t := source.tools, source.tools[k];
    var now, earlier := UpdatedTools(current, tools, k + 1), UpdatedTools(current, tools, k);
    if Records(current, t, all) {
      UndoLast(source.(tools := now), ToolChanges(current, tools, k, all),
               Change(DescriptionPointer(k), t.description, current[t.name]));
      UndoDescription(source.(tools := now), k, t.description, current[t.name]);
      assert now[k := now[k].(description := t.description)] == earlier;
    } else {
      assert now == earlier;
      assert ToolChanges(current, tools, k + 1, all) == ToolChanges(current, tools, k, all);
    }
  }

  /** Undoing the recorded descriptions gives back the tools. */
  lemma {:induction false} UndoTools(current: map<string, string>, source: Request, k: nat, all: bool)
    requires k <= |source.tools|
    ensures Undo(source.(tools := UpdatedTools(current, source.tools, k)),
                 ToolChanges(current, source.tools, k, all)) == Some(source)
  {
    if k == 0 {
      assert source.(tools := source.tools) == source;
    } else {
      UndoToolStep(current, source, k - 1, all);
      UndoTools(current, source, k - 1, all);
    }
  }

  // ---------- what the changes say ----------

  /** Every described tool has today's description and is otherwise the same; the others are untouched. */
  lemma DescriptionsAreCurrent(current: map<string, string>, tools: seq<Tool>, i: nat)
    requires i < |tools|
    ensures var now, was := UpdatedTools(current, tools, |tools|)[i], tools[i];
            && now.name == was.name && now.other == was.other
            && now.description == if was.name in current then current[was.name] else was.description
  {
  }

  /** A change is recorded exactly for each described tool, or for each whose description differs, with
      its description before and after. */
  lemma {:induction false} ChangesAreDescriptions(current: map<string, string>, tools: seq<Tool>, k: nat,
                                                  all: bool, c: Change)
    requires k <= |tools|
    ensures c in ToolChanges(current, tools, k, all) <==>
            exists i | 0 <= i < k ::
              && tools[i].name in current
              && (all || tools[i].description != current[tools[i].name])
              && c == Change(DescriptionPointer(i), tools[i].description, current[tools[i].name])
  {
    if k > 0 {
      ChangesAreDescriptions(current, tools, k - 1, all, c);
    }
  }

  /** Making a recorded change; None where there is nothing of that kind to change. */
  function RedoOne(r: Request, c: Change): Option<Request> {
    if c.Appended? then Some(r.(tools := r.tools + [c.tool]))
    else
      var parts := Segments(c.path);
      if |parts| < 2 then None
      else
        match Position(parts[1])
        case None => None
        case Some(i) =>
          if parts[0] == "tools" then
            if i >= |r.tools| then None
            else Some(r.(tools := r.tools[i := r.tools[i].(description := c.after)]))
          else if i >= |r.messages| then None
          else Some(WithContent(r, i, c.after))
  }

  /** Making the first change first. */
  function Redo(r: Request, changes: seq<Change>): Option<Request> {
    if changes == [] then Some(r)
    else
      match Redo(r, changes[..|changes| - 1])
      case None => None
      case Some(r') => RedoOne(r', changes[|changes| - 1])
  }

  lemma RedoLast(r: Request, changes: seq<Change>, c: Change)
    ensures Redo(r, changes + [c]) ==
            match Redo(r, changes)
            case None => None
            case Some(r') => RedoOne(r', c)
  {
    assert (changes + [c])[..|changes|] == changes;
  }

  lemma {:induction false} RedoConcat(r: Request, first: seq<Change>, later: seq<Change>)
    ensures Redo(r, first + later) ==
            match Redo(r, first)
            case None => None
            case Some(r') => Redo(r', later)
  {
    if later == [] {
      assert first + later == first;
    } else {
      var front, last := later[..|later| - 1], later[|later| - 1];
      assert first + later == (first + front) + [last] && later == front + [last];
      RedoConcat(r, first, front);
      RedoLast(r, first + front, last);
      if Redo(r, first).Some? {
        RedoLast(Redo(r, first).value, front, last);
      }
    }
  }

  lemma RedoContent(r: Request, i: nat, before: string, after: string)
    requires i < |r.messages|
    ensures RedoOne(r, Change(ContentPointer(i), before, after)) == Some(WithContent(r, i, after))
  {
    ContentSegments(i);
    PositionOfDecimal(i);
    assert "messages"[0] != "tools"[0];
  }

  /** Making the recorded changes gives the described request: nothing changed unrecorded. */
  lemma {:induction false} RedoTools(current: map<string, string>, source: Request, k: nat, all: bool)
    requires k <= |source.tools|
    ensures Redo(source, ToolChanges(current, source.tools, k, all)) ==
            Some(source.(tools := UpdatedTools(current, source.tools, k)))
  {
    if k == 0 {
      assert source.(tools := source.tools) == source;
    } else {
      var tools, t := source.tools, source.tools[k - 1];
      var now, earlier := UpdatedTools(current, tools, k), UpdatedTools(current, tools, k - 1);
      RedoTools(current, source, k - 1, all);
      if Records(current, t, all) {
        RedoLast(source, ToolChanges(current, tools, k - 1, all),
                 Change(DescriptionPointer(k - 1), t.description, current[t.name]));
        DescriptionSegments(k - 1);
        PositionOfDecimal(k - 1);
      } else {
        assert now == earlier;
        assert ToolChanges(current, tools, k, all) == ToolChanges(current, tools, k - 1, all);
      }
    }
  }
}
