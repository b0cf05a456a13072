/** A frozen request with the tool descriptions of today and one replaced reply, and the inverse
    check that this is all that changed. */
module SelfDebug {
  import opened Wrappers
  import opened JsonTree
  import opened Requests
  import opened BenchRecovery

  /** The selected reply of the request, and what to put in its place. */
  datatype Reply = Reply(callId: string, response: Response)

  const DIAGNOSTIC := "diagnose_current_run"
  const RAW_FAILURE := "Validation failed for tool "

  /** The catalogue's descriptions, with that of the diagnostic tool. */
  function Current(p: Product, diagnostic: string): map<string, string> {
    Descriptions(p.catalog)[DIAGNOSTIC := diagnostic]
  }

  /** Undoing the replaced reply after the descriptions gives back the request. */
  lemma UndoAll(current: map<string, string>, source: Request, index: nat, after: string)
    requires index < |source.messages|
    ensures var n := |source.tools|;
            var c := Change(ContentPointer(index), source.messages[index].content, after);
            Undo(WithContent(source.(tools := UpdatedTools(current, source.tools, n)), index, after),
                 ToolChanges(current, source.tools, n, false) + [c]) == Some(source)
  {
    var n := |source.tools|;
    var described := source.(tools := UpdatedTools(current, source.tools, n));
    var before := source.messages[index].content;
    UndoContent(WithContent(described, index, after), index, before, after);
    UndoLast(WithContent(described, index, after), ToolChanges(current, source.tools, n, false),
             Change(ContentPointer(index), before, after));
    assert described.messages[index := described.messages[index].(content := after)]
                             [index := described.messages[index]] == described.messages;
    UndoTools(current, source, n, false);
  }

  /** And making them gives the candidate. */
  lemma RedoAll(current: map<string, string>, source: Request, index: nat, after: string)
    requires index < |source.messages|
    ensures var n := |source.tools|;
            var c := Change(ContentPointer(index), source.messages[index].content, after);
            Redo(source, ToolChanges(current, source.tools, n, false) + [c]) ==
            Some(WithContent(source.(tools := UpdatedTools(current, source.tools, n)), index, after))
  {
    var n := |source.tools|;
    RedoTools(current, source, n, false);
    RedoLast(source, ToolChanges(current, source.tools, n, false),
             Change(ContentPointer(index), source.messages[index].content, after));
    RedoContent(source.(tools := UpdatedTools(current, source.tools, n)), index,
                source.messages[index].content, after);
  }

  // ---------- the candidate ----------

  /** A raw historical failure is first given the form of a failing reply. */
  predicate Normalizable(p: Product, content: string) {
    p.read(content) == Failed || (p.read(content) == NotJson && RAW_FAILURE <= content
                                  && p.read(p.wrap(content)) == Failed)
  }

  /** The requests `_current_candidate` accepts. */
  predicate Acceptable(p: Product, source: Request, reply: Option<Reply>) {
    && Candidatable(p, source) && DIAGNOSTIC in Names(source.tools)
    && (reply.Some? ==> ReplyFits(p, source, reply.value))
  }

  /** The diagnostic tool is published, and the reply to replace is the only one with its call id, recorded a
      failure, raw or as JSON, and gives way to another failure. */
  lemma AcceptableMeans(p: Product, source: Request, reply: Option<Reply>)
    ensures Acceptable(p, source, reply) <==>
            && Candidatable(p, source)
            && (exists t :: t in source.tools && t.name == "diagnose_current_run")
            && (reply.Some? ==> reply.value.response.failed && exists i :: Failing(p, source, reply.value.callId, i))
  {
    NamesAre(source.tools, DIAGNOSTIC);
    if reply.Some? {
      OneReply(source.messages, reply.value.callId);
      var found := Replies(source.messages, reply.value.callId);
      if Acceptable(p, source, reply) {
        assert Failing(p, source, reply.value.callId, found[0]);
      }
    }
  }

  ghost predicate Failing(p: Product, source: Request, callId: string, i: int) {
    && OnlyReply(source.messages, callId, i)
    && var content := source.messages[i].content;
       || p.read(content) == Failed
       || (&& p.read(content) == NotJson && "Validation failed for tool " <= content
           && p.read(p.wrap(content)) == Failed)
  }

  /** What it makes of them: today's descriptions, and the one reply. */
  function CandidateOf(p: Product, diagnostic: string, source: Request, reply: Option<Reply>): Request
    requires Acceptable(p, source, reply)
  {
    var described := source.(tools := UpdatedTools(Current(p, diagnostic), source.tools, |source.tools|));
    match reply
    case None => described
    case Some(r) => WithContent(described, Replies(source.messages, r.callId)[0], r.response.text)
  }

  /** What that is, part by part: the same messages but for the content of the one reply with the call id,
      and the same tools, each with the description of the catalogue, or of the diagnostic tool, if there
      is one. */
  lemma CandidateOfParts(p: Product, diagnostic: string, source: Request, reply: Option<Reply>)
    requires Acceptable(p, source, reply)
    ensures var c := CandidateOf(p, diagnostic, source, reply);
            && c.other == source.other && |c.messages| == |source.messages| && |c.tools| == |source.tools|
            && (forall i | 0 <= i < |source.messages| ::
                  c.messages[i] ==
                  if reply.Some? && source.messages[i].role == "tool"
                     && source.messages[i].callId == Some(reply.value.callId)
                  then source.messages[i].(content := reply.value.response.text) else source.messages[i])
            && (forall i | 0 <= i < |source.tools| ::
                  var name := source.tools[i].name;
                  && c.tools[i].name == name && c.tools[i].other == source.tools[i].other
                  && c.tools[i].description ==
                     if name == DIAGNOSTIC then diagnostic
                     else if name in p.catalog then p.catalog[name].description
                     else source.tools[i].description)
  {
    forall i | 0 <= i < |source.tools|
      ensures var now, was := CandidateOf(p, diagnostic, source, reply).tools[i], source.tools[i];
              && now.name == was.name && now.other == was.other
              && now.description == if was.name in Current(p, diagnostic) then Current(p, diagnostic)[was.name]
                                    else was.description
    {
      DescriptionsAreCurrent(Current(p, diagnostic), source.tools, i);
    }
    if reply.Some? {
      var found := Replies(source.messages, reply.value.callId);
      forall i | 0 <= i < |source.messages| && IsReply(source.messages[i], reply.value.callId)
        ensures i == found[0]
      {
        assert i in found;
      }
    }
  }

  /** The request with which the recovery starts. */
  method Normalize(p: Product, source: Request, reply: Reply) returns (r: Result<Request, Refusal>)
    ensures r.Success? <==>
            var found := Replies(source.messages, reply.callId);
            |found| == 1 && (p.read(source.messages[found[0]].content) == NotJson ==>
                               RAW_FAILURE <= source.messages[found[0]].content)
    ensures r.Success? ==>
              var i := Replies(source.messages, reply.callId)[0];
              var content := source.messages[i].content;
              r.value == if p.read(content) == NotJson then WithContent(source, i, p.wrap(content)) else source
    ensures r.Failure? ==> r.error in {NotOneReply, UnrecognizedFailure}
  {
    var found := Replies(source.messages, reply.callId);
    if |found| != 1 {
      return Failure(NotOneReply);
    }
    var content := source.messages[found[0]].content;
    if p.read(content) == NotJson {
      if !(RAW_FAILURE <= content) {
        return Failure(UnrecognizedFailure);
      }
      return Success(WithContent(source, found[0], p.wrap(content)));
    }
    return Success(source);
  }

  lemma {:induction false} RepliesKept(messages: seq<Message>, i: nat, content: string, callId: string)
    requires i < |messages|
    ensures Replies(messages[i := messages[i].(content := content)], callId) == Replies(messages, callId)
  {
    var n, changed := |messages| - 1, messages[i := messages[i].(content := content)];
    if i < n {
      RepliesKept(messages[..n], i, content, callId);
      assert changed[..n] == messages[..n][i := messages[..n][i].(content := content)];
    } else {
      assert changed[..n] == messages[..n];
    }
  }

  predicate ReplyFits(p: Product, source: Request, reply: Reply) {
    var found := Replies(source.messages, reply.callId);
    && |found| == 1 && reply.response.failed
    && Normalizable(p, source.messages[found[0]].content)
  }

  /** The system message and the tools as they were. */
  function Reset(payload: Request, source: Request): Request
    requires payload.messages != [] && source.messages != []
  {
    payload.(messages := payload.messages[0 := source.messages[0]], tools := source.tools)
  }

  /** Whatever the reply was changed to first, and whatever became of the system message. */
  lemma ResetKeepsReply(source: Request, index: nat, first: string, system: Message, text: string,
                        payload: Request)
    requires 0 < index < |source.messages| && payload.other == source.other
    requires payload.messages ==
             WithContent(source, index, first).messages[0 := system]
               [index := source.messages[index].(content := text)]
    ensures Reset(payload, source) == WithContent(source, index, text)
  {
    assert Reset(payload, source).messages == WithContent(source, index, text).messages;
  }

  method RecoveredBase(p: Product, source: Request, reply: Reply) returns (r: Result<Request, Refusal>)
    ensures r.Success? <==> Candidatable(p, source) && ReplyFits(p, source, reply)
    ensures r.Success? ==>
              r.value == WithContent(source, Replies(source.messages, reply.callId)[0], reply.response.text)
    ensures r.Failure? ==> r.error !in {EditRefused, InverseBroken}
  {
    assert |"system"| != |"tool"|;
    var normalized := Normalize(p, source, reply);
    if normalized.Failure? {
      return normalized;
    }
    var index := Replies(source.messages, reply.callId)[0];
    RepliesKept(source.messages, index, p.wrap(source.messages[index].content), reply.callId);
    var recovery := RecoveryCandidate(p, normalized.value, reply.callId, reply.response);
    if recovery.Failure? {
      return Failure(recovery.error);
    }
    var payload := recovery.value.request;
    SameContent(source, index);
    ResetKeepsReply(source, index, normalized.value.messages[index].content,
                    payload.messages[0], reply.response.text, payload);
    return Success(Reset(payload, source));
  }

  /** The request before descriptions are updated: only the selected reply differs. */
  method Base(p: Product, source: Request, reply: Option<Reply>) returns (r: Result<Request, Refusal>)
    ensures r.Success? <==>
            Candidatable(p, source) && (reply.Some? ==> ReplyFits(p, source, reply.value))
    ensures r.Success? ==>
              r.value == if reply.None? then source
                         else WithContent(source, Replies(source.messages, reply.value.callId)[0],
                                          reply.value.response.text)
    ensures r.Failure? ==> r.error !in {EditRefused, InverseBroken}
  {
    if reply.Some? {
      r := RecoveredBase(p, source, reply.value);
      return;
    }
    var current := Candidate(p, source);
    if current.Failure? {
      return Failure(current.error);
    }
    return Success(Reset(current.value.0, source));
  }

  /** The loop over the tools. */
  method Describe(current: map<string, string>, source: Request, base: Request)
    returns (payload: Request, changes: seq<Change>)
    requires base.tools == source.tools
    ensures payload == base.(tools := UpdatedTools(current, source.tools, |source.tools|))
    ensures changes == ToolChanges(current, source.tools, |source.tools|, false)
  {
    payload, changes := base, [];
    for i := 0 to |source.tools|
      invariant payload == base.(tools := UpdatedTools(current, source.tools, i))
      invariant changes == ToolChanges(current, source.tools, i, false)
    {
      var before := payload.tools[i];
      if before.name in current {
        var after := current[before.name];
        payload := payload.(tools := payload.tools[i := before.(description := after)]);
        if before.description != after {
          changes := changes + [Change(DescriptionPointer(i), before.description, after)];
        }
      }
    }
  }

  /** `_current_candidate`: it accepts exactly the acceptable requests, changes nothing but
      descriptions of tools in the catalogue and the selected reply, records changes whose undoing
      gives back the source, and never fails its own inverse check. */
  method CurrentCandidate(p: Product, diagnostic: string, source: Request, reply: Option<Reply>)
    returns (r: Result<(Request, seq<Change>), Refusal>)
    ensures r.Success? <==> Acceptable(p, source, reply)
    ensures r.Success? ==> r.value.0 == CandidateOf(p, diagnostic, source, reply)
    ensures r.Success? ==> Undo(r.value.0, r.value.1) == Some(source)
    ensures r.Success? ==> Redo(source, r.value.1) == Some(r.value.0)
    ensures r.Failure? ==> r.error !in {EditRefused, InverseBroken}
  {
    var base := Base(p, source, reply);
    if base.Failure? {
      return Failure(base.error);
    }
    var current := Current(p, diagnostic);
    var payload, changes := Describe(current, source, base.value);
    if DIAGNOSTIC !in Names(source.tools) {
      return Failure(DiagnosticMissing);
    }
    if reply.Some? {
      var index := Replies(source.messages, reply.value.callId)[0];
      changes := changes + [Change(ContentPointer(index), source.messages[index].content,
                                   payload.messages[index].content)];
      UndoAll(current, source, index, reply.value.response.text);
      RedoAll(current, source, index, reply.value.response.text);
    } else {
      UndoTools(current, source, |source.tools|, false);
      RedoTools(current, source, |source.tools|, false);
    }
    var restored := UndoReversed(payload, changes);
    if restored != Some(source) {
      return Failure(InverseBroken);
    }
    return Success((payload, changes));
  }

  /** The loop over `reversed(changes)`. */
  method UndoReversed(payload: Request, changes: seq<Change>) returns (r: Option<Request>)
    ensures r == Undo(payload, changes)
  {
    var restored := payload;
    assert changes[..|changes|] == changes;
    for i := |changes| downto 0
      invariant Undo(payload, changes) == Undo(restored, changes[..i])
    {
      assert changes[..i + 1][..i] == changes[..i];
      var next := UndoOne(restored, changes[i]);
      if next.None? {
        return None;
      }
      restored := next.value;
    }
    return Some(restored);
  }
}
