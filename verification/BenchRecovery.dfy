/** Bringing a frozen request up to the current catalogue, and replacing one failed tool reply. */
module BenchRecovery {
  import opened Wrappers
  import opened JsonTree
  import opened Requests
  import Patches

  /** How a recorded tool reply reads: not JSON, JSON that reports a failure, or anything else. */
  datatype Reading = NotJson | Failed | OtherJson

  /** The current product: its tools by name, its policy, and the text functions it uses. */
  datatype Product = Product(catalog: map<string, Tool>, policy: string, read: string -> Reading,
                             wrap: string -> string, digest: Patches.Fingerprint)

  datatype Refusal =
    | NoSystemMessage | MissingDefinition | NotOneReply | NotAFailure | UnrecognizedFailure
    | DiagnosticMissing | EditRefused | InverseBroken

  const ALLOCATION := "mcp_odoo_read_purchase_allocation"

  // ---------- candidate ----------

  /** The descriptions of the catalogue. */
  function Descriptions(catalog: map<string, Tool>): map<string, string> {
    map name | name in catalog :: catalog[name].description
  }

  function WithPolicy(p: Product, m: Message): Message {
    m.(content := m.content + "\n" + p.policy)
  }

  predicate Candidatable(p: Product, source: Request) {
    && source.messages != [] && source.messages[0].role == "system"
    && (ALLOCATION in Names(source.tools) || ALLOCATION in p.catalog)
  }

  lemma NamesAre(tools: seq<Tool>, name: string)
    ensures name in Names(tools) <==> exists t :: t in tools && t.name == name
  {
  }

  lemma CandidatableMeans(p: Product, source: Request)
    ensures Candidatable(p, source) <==>
            && |source.messages| > 0 && source.messages[0].role == "system"
            && ((exists t :: t in source.tools && t.name == "mcp_odoo_read_purchase_allocation")
                || "mcp_odoo_read_purchase_allocation" in p.catalog)
  {
    NamesAre(source.tools, ALLOCATION);
  }

  /** The allocation tool, if the request does not have it. */
  function Missing(p: Product, tools: seq<Tool>): seq<Tool>
    requires ALLOCATION in Names(tools) || ALLOCATION in p.catalog
  {
    if ALLOCATION in Names(tools) then [] else [p.catalog[ALLOCATION]]
  }

  /** The request brought up to date. */
  function CandidateRequest(p: Product, source: Request): Request
    requires Candidatable(p, source)
  {
    var tools := UpdatedTools(Descriptions(p.catalog), source.tools, |source.tools|);
    source.(messages := source.messages[0 := WithPolicy(p, source.messages[0])],
            tools := tools + Missing(p, source.tools))
  }

  /** What is recorded about it. */
  function CandidateChanges(p: Product, source: Request): seq<Change>
    requires Candidatable(p, source)
  {
    var m := source.messages[0];
    [Change(ContentPointer(0), m.content, WithPolicy(p, m).content)]
    + ToolChanges(Descriptions(p.catalog), source.tools, |source.tools|, true)
    + if ALLOCATION in Names(source.tools) then [] else [Appended(p.catalog[ALLOCATION])]
  }

  lemma UndoAppended(r: Request, added: seq<Tool>, changes: seq<Change>)
    requires |added| <= 1
    ensures Undo(r.(tools := r.tools + added), changes + if added == [] then [] else [Appended(added[0])]) ==
            Undo(r, changes)
  {
    if added == [] {
      assert r.tools + added == r.tools && changes + [] == changes;
    } else {
      UndoLast(r.(tools := r.tools + added), changes, Appended(added[0]));
      assert (r.tools + added)[..|r.tools|] == r.tools;
    }
  }

  /** The recorded changes of a candidate undo to its source. */
  lemma CandidateUndone(p: Product, source: Request)
    requires Candidatable(p, source)
    ensures Undo(CandidateRequest(p, source), CandidateChanges(p, source)) == Some(source)
  {
    var current, n, m := Descriptions(p.catalog), |source.tools|, source.messages[0];
    var first := [Change(ContentPointer(0), m.content, WithPolicy(p, m).content)];
    var tools := ToolChanges(current, source.tools, n, true);
    var policed := source.(messages := source.messages[0 := WithPolicy(p, m)]);
    UndoAppended(policed.(tools := UpdatedTools(current, source.tools, n)), Missing(p, source.tools),
                 first + tools);
    UndoConcat(policed.(tools := UpdatedTools(current, source.tools, n)), first, tools);
    UndoTools(current, policed, n, true);
    UndoContent(policed, 0, m.content, WithPolicy(p, m).content);
    assert WithContent(policed, 0, m.content).messages == source.messages;
    UndoLast(policed, [], first[0]);
    assert [] + first == first;
  }

  /** And made on the source they give the candidate: nothing is changed without being recorded. */
  lemma CandidateRedone(p: Product, source: Request)
    requires Candidatable(p, source)
    ensures Redo(source, CandidateChanges(p, source)) == Some(CandidateRequest(p, source))
  {
    var current, n, m := Descriptions(p.catalog), |source.tools|, source.messages[0];
    var c := Change(ContentPointer(0), m.content, WithPolicy(p, m).content);
    var tools := ToolChanges(current, source.tools, n, true);
    var policed := source.(messages := source.messages[0 := WithPolicy(p, m)]);
    RedoContent(source, 0, m.content, WithPolicy(p, m).content);
    RedoLast(source, [], c);
    assert [] + [c] == [c];
    RedoConcat(source, [c], tools);
    RedoTools(current, policed, n, true);
    RedoAppended(source, [c] + tools, policed.(tools := UpdatedTools(current, source.tools, n)),
                 Missing(p, source.tools));
  }

  lemma RedoAppended(source: Request, changes: seq<Change>, r: Request, added: seq<Tool>)
    requires |added| <= 1 && Redo(source, changes) == Some(r)
    ensures Redo(source, changes + if added == [] then [] else [Appended(added[0])]) ==
            Some(r.(tools := r.tools + added))
  {
    if added == [] {
      assert r.tools + added == r.tools && changes + [] == changes;
    } else {
      RedoLast(source, changes, Appended(added[0]));
      assert [added[0]] == added;
    }
  }

  /** What a candidate is, part by part: the policy behind the system message and no other message
      touched; every tool in its place, with the catalogue's description if it has one; and the
      allocation tool among them. */
  lemma CandidateParts(p: Product, source: Request)
    requires Candidatable(p, source)
    ensures var c := CandidateRequest(p, source);
            && c.other == source.other && |c.messages| == |source.messages|
            && c.messages[0] == source.messages[0].(content := source.messages[0].content + "\n" + p.policy)
            && c.messages[1..] == source.messages[1..]
            && |source.tools| <= |c.tools| <= |source.tools| + 1
            && (forall i | 0 <= i < |source.tools| ::
                  && c.tools[i].name == source.tools[i].name && c.tools[i].other == source.tools[i].other
                  && c.tools[i].description ==
                     if source.tools[i].name in p.catalog then p.catalog[source.tools[i].name].description
                     else source.tools[i].description)
            && ((exists t :: t in source.tools && t.name == ALLOCATION) ==> |c.tools| == |source.tools|)
            && ((forall t | t in source.tools :: t.name != ALLOCATION) ==>
                  ALLOCATION in p.catalog && c.tools[|source.tools|..] == [p.catalog[ALLOCATION]])
  {
    forall i | 0 <= i < |source.tools|
      ensures var now, was := CandidateRequest(p, source).tools[i], source.tools[i];
              && now.name == was.name && now.other == was.other
              && now.description ==
                 if was.name in p.catalog then p.catalog[was.name].description else was.description
    {
      DescriptionsAreCurrent(Descriptions(p.catalog), source.tools, i);
    }
    NamesAre(source.tools, ALLOCATION);
  }

  /** The loop over the tools. */
  method DescribeTools(p: Product, payload: Request)
    returns (described: Request, changes: seq<Change>)
    ensures described == payload.(tools := UpdatedTools(Descriptions(p.catalog), payload.tools, |payload.tools|))
    ensures changes == ToolChanges(Descriptions(p.catalog), payload.tools, |payload.tools|, true)
  {
    described, changes := payload, [];
    for i := 0 to |payload.tools|
      invariant described == payload.(tools := UpdatedTools(Descriptions(p.catalog), payload.tools, i))
      invariant changes == ToolChanges(Descriptions(p.catalog), payload.tools, i, true)
    {
      var t := described.tools[i];
      if t.name in p.catalog {
        var after := p.catalog[t.name].description;
        described := described.(tools := described.tools[i := t.(description := after)]);
        changes := changes + [Change(DescriptionPointer(i), t.description, after)];
      }
    }
  }

  lemma NamesKept(current: map<string, string>, tools: seq<Tool>)
    ensures Names(UpdatedTools(current, tools, |tools|)) == Names(tools)
  {
    assert forall i | 0 <= i < |tools| :: UpdatedTools(current, tools, |tools|)[i].name == tools[i].name;
  }

  /** `candidate`: the policy on the system message, current descriptions, and the allocation tool
      exactly if it was missing, with the changes that undo to the source.  Its own inverse check never
      fails. */
  method Candidate(p: Product, source: Request) returns (r: Result<(Request, seq<Change>), Refusal>)
    ensures r.Success? <==> Candidatable(p, source)
    ensures r.Success? ==> r.value == (CandidateRequest(p, source), CandidateChanges(p, source))
    ensures r.Success? ==> Undo(r.value.0, r.value.1) == Some(source)
    ensures r.Success? ==> Redo(source, r.value.1) == Some(r.value.0)
    ensures r == Failure(NoSystemMessage) <==> source.messages == [] || source.messages[0].role != "system"
    ensures r.Failure? ==> r.error in {NoSystemMessage, MissingDefinition}
  {
    if source.messages == [] || source.messages[0].role != "system" {
      return Failure(NoSystemMessage);
    }
    var m := WithPolicy(p, source.messages[0]);
    var payload := source.(messages := source.messages[0 := m]);
    var described, toolChanges := DescribeTools(p, payload);
    var changes := [Change(ContentPointer(0), source.messages[0].content, m.content)] + toolChanges;
    NamesKept(Descriptions(p.catalog), source.tools);
    if ALLOCATION in Names(described.tools) {
      assert described.tools + [] == described.tools && changes + [] == changes;
    } else {
      if ALLOCATION !in p.catalog {
        return Failure(MissingDefinition);
      }
      described := described.(tools := described.tools + [p.catalog[ALLOCATION]]);
      changes := changes + [Appended(p.catalog[ALLOCATION])];
    }
    var restored := described.(messages := described.messages[0 :=
                                 described.messages[0].(content := source.messages[0].content)],
                               tools := source.tools);
    if restored != source {
      return Failure(InverseBroken);
    }
    CandidateUndone(p, source);
    CandidateRedone(p, source);
    return Success((described, changes));
  }

  // ---------- recovery ----------

  predicate IsReply(m: Message, callId: string) {
    m.role == "tool" && m.callId == Some(callId)
  }

  function Replies(messages: seq<Message>, callId: string): (r: seq<nat>)
    ensures forall k | 0 <= k < |r| :: r[k] < |messages| && IsReply(messages[r[k]], callId)
    ensures forall i | 0 <= i < |messages| && IsReply(messages[i], callId) :: i in r
    ensures forall k, l | 0 <= k < l < |r| :: r[k] < r[l]
  {
    if messages == [] then []
    else
      var n := |messages| - 1;
      var front := Replies(messages[..n], callId);
      assert forall k | 0 <= k < |front| :: IsReply(messages[front[k]], callId);
      front + if IsReply(messages[n], callId) then [n] else []
  }

  /** The one tool message with this call id. */
  ghost predicate OnlyReply(messages: seq<Message>, callId: string, i: int) {
    && 0 <= i < |messages| && messages[i].role == "tool" && messages[i].callId == Some(callId)
    && forall j | 0 <= j < |messages| && messages[j].role == "tool" && messages[j].callId == Some(callId) :: j == i
  }

  lemma OneReply(messages: seq<Message>, callId: string)
    ensures var found := Replies(messages, callId);
            && (|found| == 1 ==> OnlyReply(messages, callId, found[0]))
            && (forall i | OnlyReply(messages, callId, i) :: |found| == 1 && found[0] == i)
  {
    var found := Replies(messages, callId);
    assert |found| > 1 ==> found[0] < found[1];
    if |found| == 1 {
      forall j | 0 <= j < |messages| && IsReply(messages[j], callId)
        ensures j == found[0]
      {
        assert j in found;
      }
    }
    forall i | OnlyReply(messages, callId, i)
      ensures |found| == 1 && found[0] == i
    {
      assert IsReply(messages[i], callId);
      assert i in found;
      assert forall k | 0 <= k < |found| :: found[k] == i;
    }
  }

  /** A reply to put in place of a recorded one: its text, and whether it reports a failure. */
  datatype Response = Response(text: string, failed: bool)

  /** One edit at one whitelisted pointer that resolves goes through and validates. */
  lemma OneEditValidates(h: Patches.Fingerprint, baseline: Json, pointer: string, e: Patches.Edit)
    requires e.pointer == pointer && At(baseline, Segments(pointer)).Some?
    ensures var d := Patches.ReplaceStep(h, baseline, [pointer], Patches.Draft(baseline, []), e);
            d.Some? && Patches.Declared(h, baseline, d.value.candidate, d.value.patches, [pointer])
  {
    assert [e][..0] == [];
    assert e in [e] && forall x | x in [e] :: x == e;
    Patches.UnnestedEditsValidate(h, baseline, [pointer], [e]);
    assert Patches.Replay(h, baseline, [pointer], []) ==
           Some(Patches.Trace(Patches.Draft(baseline, []), []));
    assert Patches.Replay(h, baseline, [pointer], [e]) ==
           Patches.TraceStep(h, baseline, [pointer], Patches.Trace(Patches.Draft(baseline, []), []), e);
  }

  const PRODUCER := "NativeReads.call; same failed arguments against isolated snapshot"

  /** The patch recorded for the reply, if it changes anything. */
  function ReplyPatches(h: Patches.Fingerprint, before: string, index: nat, text: string): seq<Patches.Patch> {
    if before == text then []
    else [Patches.Patch(ContentPointer(index), h(Text(before)), h(Text(text)), PRODUCER)]
  }

  lemma ReplyResolves(payload: Request, index: nat)
    requires index < |payload.messages|
    ensures At(RequestJson(payload), Segments(ContentPointer(index))).Some?
  {
    ContentSegments(index);
    ContentAt(payload, index);
  }

  /** What one `replace` at the reply's content does. */
  lemma ReplyStep(h: Patches.Fingerprint, payload: Request, index: nat, text: string)
    requires index < |payload.messages|
    ensures var pointer := ContentPointer(index);
            Patches.ReplaceStep(h, RequestJson(payload), [pointer], Patches.Draft(RequestJson(payload), []),
                                Patches.Edit(pointer, Text(text), PRODUCER)) ==
            Some(Patches.Draft(RequestJson(WithContent(payload, index, text)),
                               ReplyPatches(h, payload.messages[index].content, index, text)))
  {
    var pointer, before := ContentPointer(index), payload.messages[index].content;
    ContentSegments(index);
    ContentAt(payload, index);
    ContentWrite(payload, index, text);
    SameContent(payload, index);
    Patches.FirstReplace(h, RequestJson(payload), Patches.Edit(pointer, Text(text), PRODUCER), Text(before));
  }

  /** The recorded replacement of one reply, and its validation: they never refuse, the document they
      leave is the request with the new reply, and the patch carries both digests. */
  method ReplaceReply(h: Patches.Fingerprint, payload: Request, index: nat, text: string)
    returns (edited: Option<Patches.Draft>)
    requires index < |payload.messages|
    ensures edited == Some(Patches.Draft(RequestJson(WithContent(payload, index, text)),
                                         ReplyPatches(h, payload.messages[index].content, index, text)))
    ensures Patches.Declared(h, RequestJson(payload), edited.value.candidate, edited.value.patches,
                             [ContentPointer(index)])
  {
    var pointer := ContentPointer(index);
    var e := Patches.Edit(pointer, Text(text), PRODUCER);
    var baseline := RequestJson(payload);
    ReplyResolves(payload, index);
    ReplyStep(h, payload, index, text);
    OneEditValidates(h, baseline, pointer, e);
    var bench := new Patches.Workbench(baseline, [pointer]);
    var done := bench.Replace(h, pointer, Text(text), PRODUCER);
    if !done {
      return None;
    }
    var verdict := Patches.ValidatePatches(h, bench.baseline, bench.candidate, bench.patches, [pointer]);
    if verdict.Fail? {
      return None;
    }
    return Some(Patches.Draft(bench.candidate, bench.patches));
  }

  predicate Recoverable(p: Product, source: Request, callId: string, response: Response) {
    var found := Replies(source.messages, callId);
    && Candidatable(p, source) && |found| == 1 && response.failed
    && p.read(source.messages[found[0]].content) == Failed
  }

  /** The one reply with the call id recorded a failure, and the response reports one; that reply is the
      one replaced. */
  lemma RecoverableMeans(p: Product, source: Request, callId: string, response: Response)
    ensures Recoverable(p, source, callId, response) <==>
            && Candidatable(p, source) && response.failed
            && exists i :: OnlyReply(source.messages, callId, i) && p.read(source.messages[i].content) == Failed
    ensures Recoverable(p, source, callId, response) ==>
              OnlyReply(source.messages, callId, Replies(source.messages, callId)[0])
  {
    OneReply(source.messages, callId);
    if Recoverable(p, source, callId, response) {
      assert OnlyReply(source.messages, callId, Replies(source.messages, callId)[0]);
    }
  }

  /** The request with the replaced reply, what was recorded as changes, and as patches. */
  datatype Recovery = Recovery(request: Request, changes: seq<Change>, patches: seq<Patches.Patch>)

  /** `recovery_candidate`: the candidate with one failed reply replaced and nothing else.  It succeeds
      exactly for one recorded failure and one failing response; the patch it records always
      validates. */
  method RecoveryCandidate(p: Product, source: Request, callId: string, response: Response)
    returns (r: Result<Recovery, Refusal>)
    ensures r.Success? <==> Recoverable(p, source, callId, response)
    ensures r.Success? ==>
              var i := Replies(source.messages, callId)[0];
              && 0 < i < |CandidateRequest(p, source).messages|
              && r.value == Recovery(WithContent(CandidateRequest(p, source), i, response.text),
                                     CandidateChanges(p, source),
                                     ReplyPatches(p.digest, source.messages[i].content, i, response.text))
    ensures r.Failure? ==> r.error in {NoSystemMessage, MissingDefinition, NotOneReply, NotAFailure}
  {
    var current := Candidate(p, source);
    if current.Failure? {
      return Failure(current.error);
    }
    var payload := current.value.0;
    var found := Replies(source.messages, callId);
    if |found| != 1 || !response.failed {
      return Failure(NotOneReply);
    }
    var index := found[0];
    if p.read(source.messages[index].content) != Failed {
      return Failure(NotAFailure);
    }
    assert source.messages[0].role != "tool" by { assert |"system"| != |"tool"|; }
    assert index != 0;
    var edited := ReplaceReply(p.digest, payload, index, response.text);
    if edited.None? {
      return Failure(EditRefused);
    }
    return Success(Recovery(WithContent(payload, index, response.text), current.value.1, edited.value.patches));
  }
}
