/** The backend log: what was dispatched, and the counters the report keeps of it. */
module Dispatches {
  import opened Wrappers

  datatype Dispatch = Dispatch(event: string, backend: string, tool: string, callId: Option<string>,
                               sequence: Option<int>, deferred: Option<string>)

  const PREFIX := "mcp_odoo_"

  /** `tool.removeprefix("mcp_odoo_")` */
  function BareTool(tool: string): string {
    if PREFIX <= tool then tool[|PREFIX|..] else tool
  }

  function Rows(log: seq<Dispatch>, event: string): seq<Dispatch> {
    if log == [] then []
    else
      var n := |log| - 1;
      Rows(log[..n], event) + if log[n].event == event then [log[n]] else []
  }

  function CallIds(rows: seq<Dispatch>): multiset<Option<string>> {
    if rows == [] then multiset{}
    else CallIds(rows[..|rows| - 1]) + multiset{rows[|rows| - 1].callId}
  }

  function Started(log: seq<Dispatch>): multiset<Option<string>> {
    CallIds(Rows(log, "start"))
  }

  function Ended(log: seq<Dispatch>): multiset<Option<string>> {
    CallIds(Rows(log, "end"))
  }

  function Unfinished(log: seq<Dispatch>): nat {
    |Started(log) - Ended(log)|
  }

  function Unmatched(log: seq<Dispatch>): nat {
    |Ended(log) - Started(log)|
  }

  /** Rows without a usable call id. */
  function MissingIds(log: seq<Dispatch>): nat {
    if log == [] then 0
    else
      var id := log[|log| - 1].callId;
      MissingIds(log[..|log| - 1]) + if id.None? || id.value == "" then 1 else 0
  }

  lemma {:induction false} RowsMembers(log: seq<Dispatch>, event: string)
    ensures forall d :: d in Rows(log, event) <==> d in log && d.event == event
  {
    if log != [] {
      var n := |log| - 1;
      RowsMembers(log[..n], event);
      assert log == log[..n] + [log[n]];
    }
  }

  lemma {:induction false} NoneMissing(log: seq<Dispatch>)
    ensures MissingIds(log) == 0 <==> forall d | d in log :: d.callId.Some? && d.callId.value != ""
  {
    if log != [] {
      var n := |log| - 1;
      NoneMissing(log[..n]);
      assert log == log[..n] + [log[n]];
      assert log[n] in log;
      assert forall d | d in log[..n] :: d in log;
    }
  }

  /** Both counters are zero exactly if the started and the ended ids are the same, counted with
      repetition. */
  lemma BalancedIsEqual(log: seq<Dispatch>)
    ensures Unfinished(log) == 0 && Unmatched(log) == 0 <==> Started(log) == Ended(log)
  {
    var s, e := Started(log), Ended(log);
    if Unfinished(log) == 0 && Unmatched(log) == 0 {
      forall id
        ensures s[id] == e[id]
      {
        assert (s - e)[id] == 0 && (e - s)[id] == 0;
      }
    }
  }

  /** The numbered starts of tools with side effects. */
  function Mutations(log: seq<Dispatch>, sideEffects: set<string>): seq<int> {
    if log == [] then []
    else
      var n := |log| - 1;
      Mutations(log[..n], sideEffects) + if IsMutation(log[n], sideEffects) then [log[n].sequence.value] else []
  }

  predicate IsMutation(d: Dispatch, sideEffects: set<string>) {
    d.event == "start" && BareTool(d.tool) in sideEffects && d.sequence.Some?
  }

  lemma {:induction false} MutationsMembers(log: seq<Dispatch>, sideEffects: set<string>)
    ensures forall d | d in log && IsMutation(d, sideEffects) :: d.sequence.value in Mutations(log, sideEffects)
    ensures forall x | x in Mutations(log, sideEffects) ::
              exists d :: d in log && IsMutation(d, sideEffects) && d.sequence.value == x
  {
    if log != [] {
      var n := |log| - 1;
      MutationsMembers(log[..n], sideEffects);
      assert log == log[..n] + [log[n]];
      assert log[n] in log;
    }
  }

  // ---------- the counters, row by row ----------

  lemma BareToolMeans(tool: string, bare: string)
    ensures BareTool("mcp_odoo_" + bare) == bare
    ensures !("mcp_odoo_" <= tool) ==> BareTool(tool) == tool
  {
  }

  /** How often the log has a row of this event for this call. */
  function CountOf(log: seq<Dispatch>, event: string, id: Option<string>): nat {
    if log == [] then 0
    else (if log[0].event == event && log[0].callId == id then 1 else 0) + CountOf(log[1..], event, id)
  }

  lemma {:induction false} CountOfLast(log: seq<Dispatch>, d: Dispatch, event: string, id: Option<string>)
    ensures CountOf(log + [d], event, id) ==
            CountOf(log, event, id) + if d.event == event && d.callId == id then 1 else 0
  {
    if log == [] {
      assert ([] + [d])[1..] == [];
    } else {
      CountOfLast(log[1..], d, event, id);
      assert (log + [d])[1..] == log[1..] + [d];
    }
  }

  lemma {:induction false} IdsCounted(log: seq<Dispatch>, event: string, id: Option<string>)
    ensures CallIds(Rows(log, event))[id] == CountOf(log, event, id)
  {
    if log != [] {
      var n := |log| - 1;
      var front := Rows(log[..n], event);
      IdsCounted(log[..n], event, id);
      CountOfLast(log[..n], log[n], event, id);
      assert log == log[..n] + [log[n]];
      if log[n].event == event {
        assert (front + [log[n]])[..|front|] == front;
      } else {
        assert Rows(log, event) == front;
      }
    }
  }

  /** The log has more rows of one event than of the other for some call. */
  ghost predicate MoreOf(log: seq<Dispatch>, event: string, other: string) {
    exists id :: CountOf(log, event, id) > CountOf(log, other, id)
  }

  lemma Excess(log: seq<Dispatch>, event: string, other: string)
    ensures |CallIds(Rows(log, event)) - CallIds(Rows(log, other))| > 0 <==> MoreOf(log, event, other)
  {
    var a, b := CallIds(Rows(log, event)), CallIds(Rows(log, other));
    if |a - b| > 0 {
      var id :| id in a - b;
      IdsCounted(log, event, id);
      IdsCounted(log, other, id);
      assert CountOf(log, event, id) > CountOf(log, other, id);
    }
    if id :| CountOf(log, event, id) > CountOf(log, other, id) {
      IdsCounted(log, event, id);
      IdsCounted(log, other, id);
      assert id in a - b;
    }
  }

  /** The two counters say that some call has more start rows than end rows, or more end rows than start
      rows. */
  lemma CountersMean(log: seq<Dispatch>)
    ensures Unfinished(log) > 0 <==> MoreOf(log, "start", "end")
    ensures Unmatched(log) > 0 <==> MoreOf(log, "end", "start")
  {
    Excess(log, "start", "end");
    Excess(log, "end", "start");
  }
}
