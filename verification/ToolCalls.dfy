/** Merging the tool-call rows of a trace: one pass over the rows, one entry per call. */
module ToolCalls {
  import opened Wrappers

  /** A row of the trace, normalised as the code does: case folded, dashes replaced, the first name
      and the first id that are present, absent text as the empty string. */
  datatype Item = Item(kind: string, sessionMessage: bool, toolResult: bool, plainTrace: bool,
                       name: string, callId: string, timestamp: string, error: bool, mcp: bool)

  datatype Call = Call(name: string, error: nat, mcp: nat)

  const CALL_KINDS := {"tool_call", "toolcall", "function_call", "functioncall"}
  const TOOL_KINDS := CALL_KINDS + {"tool_execution_start", "tool_execution_end"}

  function Bit(b: bool): nat {
    if b then 1 else 0
  }

  function Max(a: nat, b: nat): nat {
    if a < b then b else a
  }

  function SignatureOf(e: Item): string {
    if e.callId != "" then e.callId
    else if e.timestamp != "" then e.name + "|" + e.timestamp else ""
  }

  /** Whether a row counts as a tool call, given what else the trace contains. */
  predicate Admitted(e: Item, tree: bool, starts: bool) {
    && (tree ==> e.kind in CALL_KINDS || e.toolResult)
    && (!tree && starts ==> e.kind !in CALL_KINDS)
    && (e.kind in TOOL_KINDS || e.plainTrace)
    && e.name != ""
  }

  predicate HasTree(items: seq<Item>) {
    exists e | e in items :: e.sessionMessage
  }

  predicate HasStarts(items: seq<Item>) {
    exists e | e in items :: e.kind == "tool_execution_start"
  }

  function Events(items: seq<Item>, tree: bool, starts: bool): seq<Item> {
    if items == [] then []
    else
      var n := |items| - 1;
      Events(items[..n], tree, starts) + if Admitted(items[n], tree, starts) then [items[n]] else []
  }

  lemma {:induction false} EventsMembers(items: seq<Item>, tree: bool, starts: bool)
    ensures forall e :: e in Events(items, tree, starts) <==> e in items && Admitted(e, tree, starts)
  {
    if items != [] {
      var n := |items| - 1;
      EventsMembers(items[..n], tree, starts);
      assert items == items[..n] + [items[n]];
    }
  }

  /** Which rows count: named rows of a tool kind or of the plain form; in a session tree only calls and
      results, and beside execution rows no calls. */
  lemma CountedRows(items: seq<Item>, e: Item)
    ensures var tree, starts := HasTree(items), HasStarts(items);
            e in Events(items, tree, starts) <==>
            && e in items && e.name != ""
            && (e.plainTrace
                || e.kind in {"tool_call", "toolcall", "function_call", "functioncall",
                              "tool_execution_start", "tool_execution_end"})
            && ((exists m :: m in items && m.sessionMessage) ==>
                  e.toolResult || e.kind in {"tool_call", "toolcall", "function_call", "functioncall"})
            && ((forall m | m in items :: !m.sessionMessage)
                && (exists s :: s in items && s.kind == "tool_execution_start") ==>
                  e.kind !in {"tool_call", "toolcall", "function_call", "functioncall"})
  {
    EventsMembers(items, HasTree(items), HasStarts(items));
  }

  /** No trace counts both a call and the start of its execution. */
  lemma NeverBothForms(items: seq<Item>, call: Item, start: Item)
    requires var events := Events(items, HasTree(items), HasStarts(items)); call in events && start in events
    requires call.kind in CALL_KINDS && start.kind == "tool_execution_start"
    ensures start.toolResult
  {
    CountedRows(items, call);
    CountedRows(items, start);
    assert start in items && HasStarts(items);
    assert "tool_execution_start" !in CALL_KINDS by {
      assert |"tool_execution_start"| == 20;
      assert forall k | k in CALL_KINDS :: |k| < 20;
    }
  }

  // ---------- grouping ----------

  /** The two rows are the same row, or of one call. */
  predicate SameCall(events: seq<Item>, i: nat, j: nat)
    requires i < |events| && j < |events|
  {
    i == j || (SignatureOf(events[i]) != "" && SignatureOf(events[i]) == SignatureOf(events[j]))
  }

  lemma NamesSplit(name: string, time: string, name': string, time': string)
    requires name + "|" + time == name' + "|" + time' && '|' !in name && '|' !in name'
    ensures name == name' && time == time'
  {
    var s, s' := name + "|" + time, name' + "|" + time';
    assert s[|name|] == '|' && s'[|name'|] == '|';
    assert forall k | 0 <= k < |name| :: s[k] == name[k] && s[k] != '|';
    assert forall k | 0 <= k < |name'| :: s'[k] == name'[k] && s'[k] != '|';
    assert |name| == |name'|;
    assert name == s[..|name|] && name' == s'[..|name'|];
    assert time == s[|name| + 1..] && time' == s'[|name'| + 1..];
  }

  /** Two rows are of one call: with ids, if the ids are equal; without, if both are timed and of one name
      and time. */
  lemma SameCallMeans(events: seq<Item>, i: nat, j: nat)
    requires i < |events| && j < |events| && i != j
    ensures var a, b := events[i], events[j];
            && (a.callId != "" && b.callId != "" ==> (SameCall(events, i, j) <==> a.callId == b.callId))
            && (a.callId == "" && b.callId == "" && (a.timestamp == "" || b.timestamp == "") ==>
                  !SameCall(events, i, j))
            && (a.callId == "" && b.callId == "" && '|' !in a.name && '|' !in b.name ==>
                  (SameCall(events, i, j) <==>
                   a.timestamp != "" && a.name == b.name && a.timestamp == b.timestamp))
            && (a.callId != "" && b.callId == "" ==>
                  (SameCall(events, i, j) <==> b.timestamp != "" && a.callId == b.name + "|" + b.timestamp))
  {
    var a, b := events[i], events[j];
    if a.callId == "" && b.callId == "" && '|' !in a.name && '|' !in b.name && SameCall(events, i, j) {
      NamesSplit(a.name, a.timestamp, b.name, b.timestamp);
    }
  }

  /** No earlier row is of the same call. */
  predicate First(events: seq<Item>, i: nat)
    requires i < |events|
  {
    forall j | 0 <= j < i :: !SameCall(events, i, j)
  }

  predicate AnyError(events: seq<Item>, i: nat)
    requires i < |events|
  {
    exists j | 0 <= j < |events| :: SameCall(events, i, j) && events[j].error
  }

  predicate AnyMcp(events: seq<Item>, i: nat)
    requires i < |events|
  {
    exists j | 0 <= j < |events| :: SameCall(events, i, j) && events[j].mcp
  }

  /** The call that row `i` is of: the row's name, and whether any of its rows failed or was of MCP. */
  function CallOf(events: seq<Item>, i: nat, display: string -> string): Call
    requires i < |events|
  {
    Call(display(events[i].name), Bit(AnyError(events, i)), Bit(AnyMcp(events, i)))
  }

  /** The entries are the calls of the trace: `leaders` lists the first row of each call in order,
      and each entry is the call of its leader. */
  ghost predicate Grouped(events: seq<Item>, display: string -> string, result: seq<Call>, leaders: seq<nat>) {
    && |result| == |leaders|
    && (forall k | 0 <= k < |leaders| :: LeaderAt(events, leaders, k))
    && (forall i | 0 <= i < |events| && First(events, i) :: i in leaders)
    && (forall k | 0 <= k < |leaders| :: EntryAt(events, display, result, leaders, k))
  }

  /** The result has one entry per call of the trace, in the order in which the calls appear. */
  ghost predicate Merged(events: seq<Item>, display: string -> string, result: seq<Call>) {
    exists leaders :: Grouped(events, display, result, leaders)
  }

  /** Leaders are first rows, in order of appearance. */
  ghost predicate LeaderAt(events: seq<Item>, leaders: seq<nat>, k: nat)
    requires k < |leaders|
  {
    && leaders[k] < |events| && First(events, leaders[k])
    && forall l | 0 <= l < k :: leaders[l] < leaders[k]
  }

  ghost predicate EntryAt(events: seq<Item>, display: string -> string, result: seq<Call>,
                          leaders: seq<nat>, k: nat)
    requires k < |leaders| == |result|
  {
    leaders[k] < |events| && result[k] == CallOf(events, leaders[k], display)
  }

  /** The index remembers, for every signature seen, the entry of its leader. */
  ghost predicate Indexed(events: seq<Item>, seen: map<string, nat>, leaders: seq<nat>) {
    && (forall s | s in seen :: s != "" && seen[s] < |leaders| && leaders[seen[s]] < |events|
                                && SignatureOf(events[leaders[seen[s]]]) == s)
    && (forall i | 0 <= i < |events| && SignatureOf(events[i]) != "" :: SignatureOf(events[i]) in seen)
  }

  lemma SameCallKept(events: seq<Item>, e: Item, i: nat, j: nat)
    requires i < |events| && j < |events|
    ensures SameCall(events + [e], i, j) == SameCall(events, i, j)
  {
  }

  lemma FirstKept(events: seq<Item>, e: Item, i: nat)
    requires i < |events|
    ensures First(events + [e], i) == First(events, i)
  {
    forall j | 0 <= j < i
      ensures SameCall(events + [e], i, j) == SameCall(events, i, j)
    {
      SameCallKept(events, e, i, j);
    }
  }

  /** A further row of a call adds its flags to the call; other calls stay as they are. */
  lemma CallKept(events: seq<Item>, e: Item, i: nat, display: string -> string)
    requires i < |events|
    ensures var c, joins := CallOf(events, i, display), SameCall(events + [e], i, |events|);
            CallOf(events + [e], i, display) ==
            if joins then Call(c.name, Max(c.error, Bit(e.error)), Max(c.mcp, Bit(e.mcp))) else c
  {
    var longer, n := events + [e], |events|;
    forall j | 0 <= j < n
      ensures SameCall(longer, i, j) == SameCall(events, i, j) && longer[j] == events[j]
    {
    }
    assert AnyError(longer, i) <==> AnyError(events, i) || (SameCall(longer, i, n) && e.error) by {
      if AnyError(events, i) {
        var j :| 0 <= j < n && SameCall(events, i, j) && events[j].error;
        assert SameCall(longer, i, j) && longer[j].error;
      }
      if SameCall(longer, i, n) && e.error {
        assert longer[n].error;
      }
    }
    assert AnyMcp(longer, i) <==> AnyMcp(events, i) || (SameCall(longer, i, n) && e.mcp) by {
      if AnyMcp(events, i) {
        var j :| 0 <= j < n && SameCall(events, i, j) && events[j].mcp;
        assert SameCall(longer, i, j) && longer[j].mcp;
      }
      if SameCall(longer, i, n) && e.mcp {
        assert longer[n].mcp;
      }
    }
  }

  /** A row of a call that has an entry is merged into it. */
  lemma MergeStep(events: seq<Item>, e: Item, display: string -> string, result: seq<Call>,
                  leaders: seq<nat>, seen: map<string, nat>)
    requires Grouped(events, display, result, leaders) && Indexed(events, seen, leaders)
    requires SignatureOf(e) in seen
    ensures var k := seen[SignatureOf(e)];
            var c := result[k];
            Grouped(events + [e], display,
                    result[k := Call(c.name, Max(c.error, Bit(e.error)), Max(c.mcp, Bit(e.mcp)))], leaders)
    ensures Indexed(events + [e], seen, leaders)
  {
    var longer, n, k := events + [e], |events|, seen[SignatureOf(e)];
    var c := result[k];
    var after := result[k := Call(c.name, Max(c.error, Bit(e.error)), Max(c.mcp, Bit(e.mcp)))];
    assert SameCall(longer, n, leaders[k]);
    forall l | 0 <= l < |leaders|
      ensures LeaderAt(longer, leaders, l) && EntryAt(longer, display, after, leaders, l)
    {
      assert LeaderAt(events, leaders, l) && EntryAt(events, display, result, leaders, l);
      FirstKept(events, e, leaders[l]);
      CallKept(events, e, leaders[l], display);
      if l != k {
        LeadersApart(events, leaders, l, k);
        assert !SameCall(longer, leaders[l], n);
      }
    }
    forall i | 0 <= i < |longer| && First(longer, i)
      ensures i in leaders
    {
      if i < n {
        FirstKept(events, e, i);
      }
    }
  }

  lemma LeadersApart(events: seq<Item>, leaders: seq<nat>, l: nat, k: nat)
    requires l < |leaders| && k < |leaders| && l != k
    requires LeaderAt(events, leaders, l) && LeaderAt(events, leaders, k)
    ensures !SameCall(events, leaders[l], leaders[k])
  {
    if l < k {
      assert leaders[l] < leaders[k];
      assert !SameCall(events, leaders[k], leaders[l]);
    } else {
      assert leaders[k] < leaders[l];
    }
  }

  /** A row of a new call starts a new entry. */
  lemma NewStep(events: seq<Item>, e: Item, display: string -> string, result: seq<Call>,
                leaders: seq<nat>, seen: map<string, nat>)
    requires Grouped(events, display, result, leaders) && Indexed(events, seen, leaders)
    requires SignatureOf(e) !in seen
    ensures Grouped(events + [e], display, result + [Call(display(e.name), Bit(e.error), Bit(e.mcp))],
                    leaders + [|events|])
    ensures Indexed(events + [e],
                    if SignatureOf(e) != "" then seen[SignatureOf(e) := |result|] else seen,
                    leaders + [|events|])
  {
    var longer, n := events + [e], |events|;
    var after, more := result + [Call(display(e.name), Bit(e.error), Bit(e.mcp))], leaders + [n];
    forall i | 0 <= i < n
      ensures !SameCall(longer, i, n) && !SameCall(longer, n, i)
    {
      assert longer[i] == events[i];
    }
    forall l | 0 <= l < |more|
      ensures LeaderAt(longer, more, l) && EntryAt(longer, display, after, more, l)
    {
      if l < |leaders| {
        assert LeaderAt(events, leaders, l) && EntryAt(events, display, result, leaders, l);
        FirstKept(events, e, leaders[l]);
        CallKept(events, e, leaders[l], display);
      } else {
        NewCall(events, e, display);
        forall m | 0 <= m < |leaders|
          ensures leaders[m] < n
        {
          assert LeaderAt(events, leaders, m);
        }
      }
    }
    forall i | 0 <= i < |longer| && First(longer, i)
      ensures i in more
    {
      if i < n {
        FirstKept(events, e, i);
        var m :| 0 <= m < |leaders| && leaders[m] == i;
        assert more[m] == i && i in more;
      } else {
        assert more[|leaders|] == i && i in more;
      }
    }
  }

  lemma NewCall(events: seq<Item>, e: Item, display: string -> string)
    requires forall i | 0 <= i < |events| :: !SameCall(events + [e], |events|, i)
    ensures First(events + [e], |events|)
    ensures CallOf(events + [e], |events|, display) == Call(display(e.name), Bit(e.error), Bit(e.mcp))
  {
    var longer, n := events + [e], |events|;
    assert SameCall(longer, n, n) && longer[n] == e;
  }

  /** The four exits at the start of the loop. */
  method Counts(e: Item, tree: bool, starts: bool) returns (ok: bool)
    ensures ok == Admitted(e, tree, starts)
  {
    if tree && e.kind !in CALL_KINDS && !e.toolResult {
      return false;
    }
    if !tree && starts && e.kind in CALL_KINDS {
      return false;
    }
    if e.kind !in TOOL_KINDS && !e.plainTrace {
      return false;
    }
    return e.name != "";
  }

  lemma EventsStep(items: seq<Item>, tree: bool, starts: bool, i: nat)
    requires i < |items|
    ensures Events(items[..i + 1], tree, starts) ==
            if Admitted(items[i], tree, starts) then Events(items[..i], tree, starts) + [items[i]]
            else Events(items[..i], tree, starts)
  {
    assert items[..i + 1][..i] == items[..i];
  }

  /** What the loop does with an admitted row. */
  method Record(e: Item, display: string -> string, before: seq<Call>, index: map<string, nat>,
                ghost events: seq<Item>, ghost first: seq<nat>)
    returns (result: seq<Call>, seen: map<string, nat>, ghost leaders: seq<nat>)
    requires Grouped(events, display, before, first) && Indexed(events, index, first)
    ensures Grouped(events + [e], display, result, leaders) && Indexed(events + [e], seen, leaders)
  {
    result, seen, leaders := before, index, first;
    var signature := SignatureOf(e);
    if signature != "" && signature in seen {
      var k := seen[signature];
      var previous := result[k];
      MergeStep(events, e, display, result, leaders, seen);
      result := result[k := Call(previous.name, Max(previous.error, Bit(e.error)),
                                 Max(previous.mcp, Bit(e.mcp)))];
      return;
    }
    NewStep(events, e, display, result, leaders, seen);
    if signature != "" {
      seen := seen[signature := |result|];
    }
    result := result + [Call(display(e.name), Bit(e.error), Bit(e.mcp))];
    leaders := leaders + [|events|];
  }

  /** `_tool_calls`: the one-pass merge yields exactly one entry per call of the trace, in the order
      in which the calls first appear. */
  method MergeCalls(items: seq<Item>, display: string -> string) returns (result: seq<Call>)
    ensures Merged(Events(items, HasTree(items), HasStarts(items)), display, result)
  {
    var tree, starts := HasTree(items), HasStarts(items);
    var seen: map<string, nat>;
    ghost var leaders: seq<nat>;
    result, seen, leaders := [], map[], [];
    for i := 0 to |items|
      invariant Grouped(Events(items[..i], tree, starts), display, result, leaders)
      invariant Indexed(Events(items[..i], tree, starts), seen, leaders)
    {
      EventsStep(items, tree, starts, i);
      var counts := Counts(items[i], tree, starts);
      if !counts {
        continue;
      }
      result, seen, leaders := Record(items[i], display, result, seen,
                                      Events(items[..i], tree, starts), leaders);
    }
    assert items[..|items|] == items;
  }

  /** Grouping leaves no choice: two merges of one trace are the same. */
  lemma GroupingIsUnique(events: seq<Item>, display: string -> string, r1: seq<Call>, r2: seq<Call>)
    requires Merged(events, display, r1) && Merged(events, display, r2)
    ensures r1 == r2
  {
    var l1 :| Grouped(events, display, r1, l1);
    var l2 :| Grouped(events, display, r2, l2);
    LeadersUnique(events, l1, l2, |l1|);
    LeadersUnique(events, l2, l1, |l2|);
    assert l1 == l2;
    forall k | 0 <= k < |r1|
      ensures r1[k] == r2[k]
    {
      assert EntryAt(events, display, r1, l1, k) && EntryAt(events, display, r2, l2, k);
    }
  }

  ghost predicate Leading(events: seq<Item>, leaders: seq<nat>) {
    && (forall k | 0 <= k < |leaders| :: LeaderAt(events, leaders, k))
    && (forall i | 0 <= i < |events| && First(events, i) :: i in leaders)
  }

  lemma {:induction false} LeadersUnique(events: seq<Item>, l1: seq<nat>, l2: seq<nat>, n: nat)
    requires Leading(events, l1) && Leading(events, l2) && n <= |l1|
    ensures n <= |l2| && l1[..n] == l2[..n]
  {
    if n > 0 {
      LeadersUnique(events, l1, l2, n - 1);
      var m := n - 1;
      assert forall x | 0 <= x < m :: l1[x] == l1[..m][x] && l2[x] == l2[..m][x];
      assert LeaderAt(events, l1, m) && l1[m] in l2;
      var k :| 0 <= k < |l2| && l2[k] == l1[m];
      assert k >= m;
      assert LeaderAt(events, l2, k) && LeaderAt(events, l2, m);
      assert l2[m] in l1;
      var j :| 0 <= j < |l1| && l1[j] == l2[m];
      assert j >= m;
      assert LeaderAt(events, l1, j);
      assert l1[..n] == l1[..m] + [l1[m]] && l2[..n] == l2[..m] + [l2[m]];
    }
  }
}
