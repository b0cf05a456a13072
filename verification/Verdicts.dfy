/** The verdict on a trial in terms of what the trial left behind: when it is positive, when it is
    negative, and when it is left open. */
module Verdicts {
  import opened Wrappers
  import opened Dispatches
  import opened NaturalEnd
  import ToolEvents
  import Sop
  import WorldReceipts

  /** The option has this value, given or by default. */
  ghost predicate Is(t: Trial, key: string, value: string, fallback: string) {
    (key in t.options && t.options[key] == value) || (key !in t.options && value == fallback)
  }

  // ---------- dispatches and requests ----------

  /** A started tool ran where it was configured to run. */
  ghost predicate Routed(t: Trial, d: Dispatch) {
    d.event == "start" ==>
      && (BareTool(d.tool) in t.tools.actions ==> Is(t, "action_backend", d.backend, "mcp"))
      && (BareTool(d.tool) in t.tools.capabilities && d.deferred != Some("index_knowledge") ==>
            Is(t, "capability_backend", d.backend, "mcp"))
  }

  lemma RoutedMeans(t: Trial)
    ensures Misrouted(t) <==> t.backend.Some? && exists d :: d in t.backend.value && !Routed(t, d)
  {
    if Misrouted(t) {
      var i :| 0 <= i < |LogOf(t)| && (WrongAction(t, LogOf(t)[i]) || WrongCapability(t, LogOf(t)[i]));
      assert LogOf(t)[i] in t.backend.value && !Routed(t, LogOf(t)[i]);
    }
    if t.backend.Some? {
      if d :| d in t.backend.value && !Routed(t, d) {
        var i :| 0 <= i < |LogOf(t)| && LogOf(t)[i] == d;
        assert WrongAction(t, LogOf(t)[i]) || WrongCapability(t, LogOf(t)[i]);
      }
    }
  }

  /** Some request has no response. */
  ghost predicate Unanswered(r: Requests) {
    exists x :: x in r.requests && x !in r.responses
  }

  lemma UnansweredMeans(r: Requests)
    ensures r.requests - r.responses != {} <==> Unanswered(r)
  {
    if r.requests - r.responses != {} {
      var x :| x in r.requests - r.responses;
      assert x in r.requests && x !in r.responses;
    }
    if x :| x in r.requests && x !in r.responses {
      assert x in r.requests - r.responses;
    }
  }

  // ---------- runtime and ledger ----------

  /** Nothing of the other runtime is installed or running. */
  ghost predicate Clean(r: Runtime) {
    && r.status == Some("verified") && r.noDistributions
    && (forall name | name in {"mcp", "mcp_types", "odoo_mcp"} :: name in r.importable && !r.importable[name])
    && (forall name | name in {"mcp_process", "mcp_port_8000_open", "mcp_pid_file"} ::
          name in r.flags && !r.flags[name])
  }

  lemma CleanMeans(r: Runtime)
    ensures RuntimeAbsent(r) <==> Clean(r)
  {
    if Clean(r) {
      assert "mcp" in r.importable && "mcp_types" in r.importable && "odoo_mcp" in r.importable;
      assert "mcp_process" in r.flags && "mcp_port_8000_open" in r.flags && "mcp_pid_file" in r.flags;
    }
  }

  /** How many rows have this status. */
  function StatusCount(rows: seq<LedgerRow>, status: string): nat {
    if rows == [] then 0 else (if rows[0].status == status then 1 else 0) + StatusCount(rows[1..], status)
  }

  lemma {:induction false} StatusCountLast(rows: seq<LedgerRow>, r: LedgerRow, status: string)
    ensures StatusCount(rows + [r], status) == StatusCount(rows, status) + if r.status == status then 1 else 0
  {
    if rows == [] {
      assert ([] + [r])[1..] == [];
    } else {
      StatusCountLast(rows[1..], r, status);
      assert (rows + [r])[1..] == rows[1..] + [r];
    }
  }

  lemma {:induction false} StatusesCounted(rows: seq<LedgerRow>, status: string)
    ensures Statuses(rows)[status] == StatusCount(rows, status)
  {
    if rows != [] {
      var n := |rows| - 1;
      StatusesCounted(rows[..n], status);
      StatusCountLast(rows[..n], rows[n], status);
      assert rows == rows[..n] + [rows[n]];
    }
  }

  /** The ledger is there and readable, the summary says what is in it, and nothing in it is open. */
  ghost predicate LedgerProven(t: Trial) {
    && t.ledgerSummary.Some? && t.ledger.Some? && t.ledger.value.rows.Some?
    && var s, l, rows := t.ledgerSummary.value, t.ledger.value, t.ledger.value.rows.value;
       && s.digest == Some(l.digest) && s.name == Some(l.name)
       && s.actions == Some(|rows|) && s.rows == Some(rows)
       && s.statuses.Some? && (forall status :: s.statuses.value[status] == StatusCount(rows, status))
       && forall r | r in rows ::
            r.status !in {"pending_approval", "approved", "executing", "sending", "needs_reconciliation"}
  }

  lemma LedgerMeans(t: Trial)
    requires NativeActions(t)
    ensures LedgerValid(t) && !HasUnresolved(t) <==> LedgerProven(t)
  {
    if t.ledger.Some? && t.ledger.value.rows.Some? {
      var rows := t.ledger.value.rows.value;
      forall status
        ensures Statuses(rows)[status] == StatusCount(rows, status)
        ensures status in Statuses(rows) <==> exists r :: r in rows && r.status == status
      {
        StatusesCounted(rows, status);
        StatusesMembers(rows, status);
      }
      if LedgerProven(t) {
        assert t.ledgerSummary.value.statuses.value == Statuses(rows);
      }
      if LedgerValid(t) && !HasUnresolved(t) {
        LedgerIsSettled(t);
      }
    }
  }

  // ---------- procedures ----------

  /** A numbered end row of a successful call of the tool. */
  ghost predicate Success(e: ToolEvents.Event, tool: string) {
    e.event == "end" && e.tool == Some(tool) && e.success && e.endSequence.Some?
  }

  /** The log is complete, start and end of a call name one procedure, a listing ended before any reading by
      its end row, and a reading ended before any numbered change started. */
  ghost predicate SopProven(t: Trial) {
    && t.sop.Some? && !t.sop.value.readErrors
    && var events := t.sop.value.events;
       && ToolEvents.Paired(events, {"list_odoo_sops", "get_odoo_sop"})
       && (forall i, j | ToolEvents.Ends(events, {"list_odoo_sops", "get_odoo_sop"}, i, j) ::
             events[i].sopId == events[j].sopId)
       && (exists l :: ListedFirst(events, l))
       && (exists g :: ReadBefore(t, events, g))
  }

  ghost predicate ListedFirst(events: seq<ToolEvents.Event>, l: ToolEvents.Event) {
    && l in events && Success(l, "list_odoo_sops")
    && forall g | g in events && Success(g, "get_odoo_sop") ::
         g.sequence.Some? && l.endSequence.value < g.sequence.value
  }

  ghost predicate ReadBefore(t: Trial, events: seq<ToolEvents.Event>, g: ToolEvents.Event) {
    && g in events && Success(g, "get_odoo_sop")
    && (t.backend.Some? ==>
          forall d | d in t.backend.value && d.event == "start" && BareTool(d.tool) in t.tools.sideEffects
                     && d.sequence.Some? :: g.endSequence.value < d.sequence.value)
  }

  lemma ProceduresMean(events: seq<ToolEvents.Event>)
    requires ToolEvents.Closed(events, {Sop.LIST, Sop.GET})
    ensures Sop.SameProcedure(events) <==>
            forall i, j | ToolEvents.Ends(events, {Sop.LIST, Sop.GET}, i, j) :: events[i].sopId == events[j].sopId
  {
    var starts, ends := ToolEvents.OfKind(events, ToolEvents.START), ToolEvents.OfKind(events, ToolEvents.END);
    ToolEvents.ClosedIsMatching(events, {Sop.LIST, Sop.GET});
    forall i, j | ToolEvents.Ends(events, {Sop.LIST, Sop.GET}, i, j)
      ensures events[i].callId in ToolEvents.Ids(starts)
      ensures ToolEvents.LastWith(starts, events[i].callId) == Some(events[i])
      ensures ToolEvents.LastWith(ends, events[i].callId) == Some(events[j])
    {
      OnlyOfCall(events, {Sop.LIST, Sop.GET}, i, j);
    }
    if forall i, j | ToolEvents.Ends(events, {Sop.LIST, Sop.GET}, i, j) :: events[i].sopId == events[j].sopId {
      forall k | 0 <= k < |starts|
        ensures var s, e := ToolEvents.LastWith(starts, starts[k].callId), ToolEvents.LastWith(ends, starts[k].callId);
                s.Some? && e.Some? && s.value.sopId == e.value.sopId
      {
        var id := starts[k].callId;
        assert ToolEvents.Ids(starts)[k] == id;
        ToolEvents.KindMembers(events, ToolEvents.START, id);
        var i :| ToolEvents.IsOf(events, i, ToolEvents.START) && events[i].callId == id;
        ToolEvents.ClosedMeans(events, {Sop.LIST, Sop.GET});
        var j :| ToolEvents.Ends(events, {Sop.LIST, Sop.GET}, i, j);
        assert events[i].sopId == events[j].sopId;
      }
    }
    if Sop.SameProcedure(events) {
      forall i, j | ToolEvents.Ends(events, {Sop.LIST, Sop.GET}, i, j)
        ensures events[i].sopId == events[j].sopId
      {
        var k :| 0 <= k < |starts| && ToolEvents.Ids(starts)[k] == events[i].callId;
        assert starts[k].callId == events[i].callId;
      }
    }
  }

  /** In a valid log the rows of a call are the last ones with its id. */
  lemma OnlyOfCall(events: seq<ToolEvents.Event>, allowed: set<string>, i: int, j: int)
    requires ToolEvents.PerfectMatching(events, allowed) && ToolEvents.Ends(events, allowed, i, j)
    ensures var starts, ends := ToolEvents.OfKind(events, ToolEvents.START), ToolEvents.OfKind(events, ToolEvents.END);
            && events[i].callId in ToolEvents.Ids(starts)
            && ToolEvents.LastWith(starts, events[i].callId) == Some(events[i])
            && ToolEvents.LastWith(ends, events[i].callId) == Some(events[j])
  {
    var id := events[i].callId;
    ToolEvents.KindMembers(events, ToolEvents.START, id);
    ToolEvents.KindMembers(events, ToolEvents.END, id);
    assert ToolEvents.IsOf(events, i, ToolEvents.START) && ToolEvents.IsOf(events, j, ToolEvents.END);
    ToolEvents.MatchingRow(events, allowed, id);
    var starts, ends := ToolEvents.OfKind(events, ToolEvents.START), ToolEvents.OfKind(events, ToolEvents.END);
    var i' :| ToolEvents.IsOf(events, i', ToolEvents.START) && events[i'].callId == id
              && events[i'] == ToolEvents.LastWith(starts, id).value;
    var j' :| ToolEvents.IsOf(events, j', ToolEvents.END) && events[j'].callId == id
              && events[j'] == ToolEvents.LastWith(ends, id).value;
    assert i' == i && j' == j;
  }

  lemma SopMeans(t: Trial)
    requires SopOrdering(t).Some?
    ensures SopOrdering(t).value.valid && SopOrdering(t).value.readBeforeMutation <==> SopProven(t)
  {
    if t.sop.Some? {
      var log := t.sop.value;
      Sop.OrderingMeans(log.events, log.readErrors, LogOf(t), t.tools.sideEffects);
      ReceiptMeans(log);
      ListingMeans(log.events);
      ReadingMeans(t, log.events);
    }
  }

  lemma ReceiptMeans(log: EventLog)
    ensures Sop.ReceiptValid(log.events, log.readErrors) <==>
            && !log.readErrors && ToolEvents.Paired(log.events, {"list_odoo_sops", "get_odoo_sop"})
            && forall i, j | ToolEvents.Ends(log.events, {"list_odoo_sops", "get_odoo_sop"}, i, j) ::
                 log.events[i].sopId == log.events[j].sopId
  {
    ToolEvents.ClosedMeans(log.events, {Sop.LIST, Sop.GET});
    if ToolEvents.Closed(log.events, {Sop.LIST, Sop.GET}) {
      ProceduresMean(log.events);
    }
  }

  lemma ListingMeans(events: seq<ToolEvents.Event>)
    ensures (exists l :: Sop.ListsFirst(events, l)) <==> (exists l :: ListedFirst(events, l))
  {
    if l :| Sop.ListsFirst(events, l) {
      assert ListedFirst(events, l);
    }
    if l :| ListedFirst(events, l) {
      assert Sop.ListsFirst(events, l);
    }
  }

  lemma ReadingMeans(t: Trial, events: seq<ToolEvents.Event>)
    ensures (exists g :: Sop.ReadsFirst(events, g, LogOf(t), t.tools.sideEffects)) <==>
            (exists g :: ReadBefore(t, events, g))
  {
    if g :| Sop.ReadsFirst(events, g, LogOf(t), t.tools.sideEffects) {
      assert ReadBefore(t, events, g);
    }
    if g :| ReadBefore(t, events, g) {
      assert Sop.ReadsFirst(events, g, LogOf(t), t.tools.sideEffects);
    }
  }

  // ---------- published tools ----------

  /** A successful configuration of tools, with what it announced. */
  ghost predicate Configured(e: ToolEvents.Event) {
    e.event == "end" && e.tool == Some("configure_odoo_tools") && e.success && e.published.Some?
  }

  /** The first request that answers the configuration has the announced tools and the announced digest. */
  ghost predicate Announced(contracts: seq<Contract>, e: ToolEvents.Event)
    requires e.published.Some?
  {
    exists k :: AnnouncedAt(contracts, e, k)
  }

  ghost predicate AnnouncedAt(contracts: seq<Contract>, e: ToolEvents.Event, k: int)
    requires e.published.Some?
  {
    && 0 <= k < |contracts| && e.callId.Some? && e.callId.value in contracts[k].answers
    && (forall j | 0 <= j < k :: e.callId.value !in contracts[j].answers)
    && contracts[k].names == e.published.value && e.contract == Some(contracts[k].digest)
  }

  ghost predicate ToolsProven(t: Trial) {
    && t.dynamicTools.Some? && !t.dynamicTools.value.readErrors && !t.contractErrors
    && var events := t.dynamicTools.value.events;
       && ToolEvents.Paired(events, {"list_odoo_capabilities", "configure_odoo_tools"})
       && (exists e :: e in events && Configured(e))
       && forall e | e in events && Configured(e) :: Announced(t.contracts, e)
  }

  lemma {:induction false} DeliveredMeans(contracts: seq<Contract>, e: ToolEvents.Event)
    requires IsConfiguration(e)
    ensures Published(contracts, e) <==> Announced(contracts, e)
  {
    if contracts != [] {
      DeliveredMeans(contracts[1..], e);
      if e.callId.Some? && e.callId.value in contracts[0].answers {
        if Published(contracts, e) {
          assert AnnouncedAt(contracts, e, 0);
        }
        if k :| AnnouncedAt(contracts, e, k) {
          assert k == 0;
        }
      } else {
        assert Published(contracts, e) <==> Published(contracts[1..], e);
        if k :| AnnouncedAt(contracts[1..], e, k) {
          assert AnnouncedAt(contracts, e, k + 1);
        }
        if k :| AnnouncedAt(contracts, e, k) {
          assert k > 0 && AnnouncedAt(contracts[1..], e, k - 1);
        }
      }
    }
  }

  lemma ToolsMean(t: Trial)
    ensures !t.contractErrors && DynamicValid(t) && PublishVerified(t) <==> ToolsProven(t)
  {
    if t.dynamicTools.Some? {
      var events := t.dynamicTools.value.events;
      ToolEvents.ClosedMeans(events, DYNAMIC_TOOLS);
      forall e | IsConfiguration(e)
        ensures Published(t.contracts, e) <==> Announced(t.contracts, e)
      {
        DeliveredMeans(t.contracts, e);
      }
      assert forall e :: IsConfiguration(e) <==> Configured(e);
    }
  }

  // ---------- the world ----------

  /** The calls of reading tools that the backend was asked for. */
  function ReadCalls(t: Trial): set<string> {
    if t.backend.None? then {}
    else set d | d in t.backend.value && d.event == "start" && d.callId.Some?
                 && BareTool(d.tool) in t.tools.readers :: d.callId.value
  }

  /** The receipts are valid against the declared totals and, where the world is on, the calls of reading
      tools; and there the summary is readable and healthy and the backend log is there. */
  lemma WorldMeans(t: Trial)
    ensures WorldSound(t) <==>
            var on, s := !Is(t, "world_mode", "off", "off"), t.world.summary;
            && !s.BadSummary? && (on ==> s.Summary? && s.healthy && t.backend.Some?)
            && WorldReceipts.WorldValid(t.world.rows, t.world.projections, t.world.unreadable,
                                        if s.Summary? then Some(s.totals) else None,
                                        if on then Some(ReadCalls(t)) else None)
  {
    if WorldOn(t) {
      forall call
        ensures call in ExpectedCalls(t).value <==> call in ReadCalls(t)
      {
      }
      assert ExpectedCalls(t).value == ReadCalls(t);
    }
  }

  // ---------- the verdict ----------

  /** The run was stopped from here, or ended in an error, an abort or at the length limit. */
  ghost predicate Stopped(t: Trial) {
    t.localStops || t.stopReason in {"error", "aborted", "length"}
  }

  /** What denies a natural end. */
  ghost predicate Faulty(t: Trial) {
    || t.stopReason == "toolUse"
    || (t.backend.Some? && MoreOf(t.backend.value, "start", "end"))
    || (t.requests.Some? && Unanswered(t.requests.value))
    || (t.backend.Some? && exists d :: d in t.backend.value && !Routed(t, d))
    || (Is(t, "runtime_mode", "native", "mcp") && !(t.runtime.Some? && Clean(t.runtime.value)))
    || (Is(t, "action_backend", "native", "mcp") && !LedgerProven(t))
    || (!Is(t, "world_mode", "off", "off") && !WorldSound(t))
    || (Is(t, "sop_mode", "controlled", "off") && !SopProven(t))
    || (Is(t, "tool_mode", "dynamic", "static") && !ToolsProven(t))
  }

  lemma FaultyMeans(t: Trial)
    requires SopOrdering(t).Some?
    ensures Vetoed(t) <==> Faulty(t)
  {
    RoutedMeans(t);
    SopMeans(t);
    ToolsMean(t);
    if t.backend.Some? { CountersMean(t.backend.value); }
    if t.requests.Some? { UnansweredMeans(t.requests.value); }
    if t.runtime.Some? { CleanMeans(t.runtime.value); }
    if NativeActions(t) { LedgerMeans(t); }
  }

  /** The agent confirms every option it was given, and the snapshot is the one that was asked for. */
  ghost predicate OptionsConfirmed(t: Trial, fields: map<string, string>) {
    && (Is(t, "read_backend", "mcp", "") || Is(t, "read_backend", "native", ""))
    && (forall key | key in {"read_backend", "action_backend", "capability_backend", "sop_mode", "tool_mode",
                             "runtime_mode", "world_mode", "snapshot_sha256"} && key in t.options ::
          key in fields && fields[key] == t.options[key])
    && "snapshot_sha256" in t.options && t.options["snapshot_sha256"] != ""
    && t.snapshot.digest == Some(t.options["snapshot_sha256"]) && t.snapshot.status == Some("verified")
  }

  lemma OptionsMean(t: Trial)
    ensures (&& "read_backend" in t.options && t.options["read_backend"] in {"mcp", "native"}
             && "read_backend" in ReturnedOf(t).fields
             && ReturnedOf(t).fields["read_backend"] == t.options["read_backend"]
             && (forall key | key in ECHOED :: Echoed(t, key)) && SnapshotConfirmed(t)) <==>
            OptionsConfirmed(t, ReturnedOf(t).fields)
  {
  }

  /** What else a natural end takes: the model's own last word, the agent's confirmation of every option it
      was given, a verified snapshot, and counts that agree. */
  ghost predicate Confirmed(t: Trial) {
    && t.result.Some? && t.stopReason == "stop" && !t.lastToolCalls
    && OptionsConfirmed(t, t.result.value.fields)
    && (Is(t, "runtime_mode", "native", "mcp") ==> t.runtime.Some? && Clean(t.runtime.value))
    && t.requests.Some? && t.requests.value.requests == t.requests.value.responses
    && t.result.value.modelCalls == Some(|t.requests.value.requests|)
    && t.closureCalls == Some(|t.requests.value.requests|)
    && t.backend.Some? && !MoreOf(t.backend.value, "start", "end") && !MoreOf(t.backend.value, "end", "start")
    && forall d | d in t.backend.value :: d.callId.Some? && d.callId.value != ""
  }

  lemma ConfirmedMeans(t: Trial)
    ensures Complete(t) <==> Confirmed(t)
  {
    if t.backend.Some? {
      CountersMean(t.backend.value);
      NoneMissing(t.backend.value);
    }
    if t.requests.Some? { SameSets(t.requests.value.requests, t.requests.value.responses); }
    if t.runtime.Some? { CleanMeans(t.runtime.value); }
    OptionsMean(t);
  }

  lemma SameSets(a: set<string>, b: set<string>)
    ensures a - b == {} && b - a == {} <==> a == b
  {
    if a - b == {} && b - a == {} {
      forall x
        ensures x in a <==> x in b
      {
        assert x !in a - b && x !in b - a;
      }
    }
  }

  /** The verdict, exactly: negative for a stopped run, or one with a result and a fault; positive for one
      that was neither and is confirmed in every respect; open otherwise. */
  lemma VerdictMeans(t: Trial)
    requires EndOf(t) != Raised
    ensures EndOf(t) == Unnatural <==> Stopped(t) || (t.result.Some? && Faulty(t))
    ensures EndOf(t) == Natural <==> !Stopped(t) && !Faulty(t) && Confirmed(t)
  {
    FaultyMeans(t);
    ConfirmedMeans(t);
  }

  /** The report breaks off exactly if a successful reading or a configuration is not numbered. */
  lemma RaisedMeans(t: Trial)
    ensures EndOf(t) == Raised <==>
            || (t.sop.Some? && exists g :: g in t.sop.value.events && Success(g, "get_odoo_sop") && g.sequence.None?)
            || (t.dynamicTools.Some? &&
                exists e :: e in t.dynamicTools.value.events && Configured(e) && e.endSequence.None?)
  {
    if t.sop.Some? {
      assert forall g :: g in Sop.Successes(t.sop.value.events, Sop.GET) <==>
                         g in t.sop.value.events && Success(g, "get_odoo_sop");
    }
    assert forall e :: IsConfiguration(e) <==> Configured(e);
  }
}
