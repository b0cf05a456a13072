/** The three-valued verdict on how a trial ended, and what a positive verdict certifies. */
module NaturalEnd {
  import opened Wrappers
  import opened Dispatches
  import ToolEvents
  import Sop
  import WorldReceipts

  // ---------- what a trial leaves behind ----------

  /** The agent's metadata in the result file. */
  datatype Returned = Returned(fields: map<string, string>, modelCalls: Option<int>)

  datatype Requests = Requests(requests: set<string>, responses: set<string>)

  datatype Snapshot = Snapshot(digest: Option<string>, status: Option<string>)

  /** The runtime receipt: import checks and process flags by name, as far as they are booleans. */
  datatype Runtime = Runtime(status: Option<string>, importable: map<string, bool>,
                             noDistributions: bool, flags: map<string, bool>)

  datatype LedgerRow = LedgerRow(id: string, status: string)

  /** The ledger database: its digest, and its rows where it can be read. */
  datatype Ledger = Ledger(digest: string, name: string, rows: Option<seq<LedgerRow>>)

  datatype LedgerSummary = LedgerSummary(digest: Option<string>, name: Option<string>,
                                         actions: Option<int>, statuses: Option<multiset<string>>,
                                         rows: Option<seq<LedgerRow>>)

  datatype WorldSummary = NoSummary | BadSummary
                        | Summary(healthy: bool, totals: map<WorldReceipts.Total, int>)

  datatype World = World(rows: seq<WorldReceipts.Observation>,
                         projections: seq<WorldReceipts.Projection>, unreadable: nat,
                         summary: WorldSummary)

  /** The tools a provider request published, and the calls it answers. */
  datatype Contract = Contract(names: seq<string>, digest: string, answers: seq<string>)

  datatype EventLog = EventLog(events: seq<ToolEvents.Event>, readErrors: bool)

  /** The sets of tool names that the product fixes. */
  datatype Tools = Tools(actions: set<string>, capabilities: set<string>, readers: set<string>,
                         sideEffects: set<string>)

  datatype Trial = Trial(options: map<string, string>, tools: Tools,
                         localStops: bool, stopReason: string, lastToolCalls: bool,
                         result: Option<Returned>, closureCalls: Option<int>,
                         backend: Option<seq<Dispatch>>, requests: Option<Requests>,
                         snapshot: Snapshot, runtime: Option<Runtime>,
                         ledgerSummary: Option<LedgerSummary>, ledger: Option<Ledger>,
                         world: World, sop: Option<EventLog>, dynamicTools: Option<EventLog>,
                         contracts: seq<Contract>, contractErrors: bool)

  datatype Verdict = Raised | Unknown | Unnatural | Natural

  /** `options.get(key, fallback)` */
  function OptionOr(options: map<string, string>, key: string, fallback: string): string {
    if key in options then options[key] else fallback
  }

  function ReturnedOf(t: Trial): Returned {
    t.result.GetOr(Returned(map[], None))
  }

  function LogOf(t: Trial): seq<Dispatch> {
    t.backend.GetOr([])
  }

  predicate NativeActions(t: Trial) {
    OptionOr(t.options, "action_backend", "mcp") == "native"
  }

  predicate NativeRuntime(t: Trial) {
    OptionOr(t.options, "runtime_mode", "mcp") == "native"
  }

  predicate WorldOn(t: Trial) {
    OptionOr(t.options, "world_mode", "off") != "off"
  }

  predicate SopControlled(t: Trial) {
    OptionOr(t.options, "sop_mode", "off") == "controlled"
  }

  predicate DynamicTools(t: Trial) {
    OptionOr(t.options, "tool_mode", "static") == "dynamic"
  }

  // ---------- the parts of the report ----------

  predicate IsFalse(flags: map<string, bool>, name: string) {
    name in flags && !flags[name]
  }

  predicate RuntimeAbsent(r: Runtime) {
    && r.status == Some("verified")
    && IsFalse(r.importable, "mcp") && IsFalse(r.importable, "mcp_types")
    && IsFalse(r.importable, "odoo_mcp")
    && r.noDistributions
    && IsFalse(r.flags, "mcp_process") && IsFalse(r.flags, "mcp_port_8000_open")
    && IsFalse(r.flags, "mcp_pid_file")
  }

  predicate RuntimeValid(t: Trial) {
    NativeRuntime(t) ==> t.runtime.Some? && RuntimeAbsent(t.runtime.value)
  }

  function Statuses(rows: seq<LedgerRow>): multiset<string> {
    if rows == [] then multiset{} else Statuses(rows[..|rows| - 1]) + multiset{rows[|rows| - 1].status}
  }

  /** The summary agrees with the database it stands for. */
  predicate SummaryMatches(s: LedgerSummary, l: Ledger) {
    && s.digest == Some(l.digest)
    && l.rows.Some?
    && s.name == Some(l.name) && s.actions == Some(|l.rows.value|)
    && s.statuses == Some(Statuses(l.rows.value)) && s.rows == Some(l.rows.value)
  }

  predicate LedgerValid(t: Trial) {
    match t.ledgerSummary
    case Some(s) => t.ledger.Some? && SummaryMatches(s, t.ledger.value)
    case None => !NativeActions(t)
  }

  /** The status counts the verdict looks at: those of the database if it was read, else those the
      summary declares. */
  function CountsOf(t: Trial): multiset<string> {
    match t.ledgerSummary
    case None => multiset{}
    case Some(s) =>
      if t.ledger.Some? && t.ledger.value.rows.Some? then Statuses(t.ledger.value.rows.value)
      else s.statuses.GetOr(multiset{})
  }

  const UNRESOLVED := {"pending_approval", "approved", "executing", "sending", "needs_reconciliation"}

  predicate HasUnresolved(t: Trial) {
    exists s | s in UNRESOLVED :: s in CountsOf(t)
  }

  predicate WrongAction(t: Trial, d: Dispatch) {
    d.event == "start" && BareTool(d.tool) in t.tools.actions
    && d.backend != OptionOr(t.options, "action_backend", "mcp")
  }

  predicate WrongCapability(t: Trial, d: Dispatch) {
    d.event == "start" && BareTool(d.tool) in t.tools.capabilities
    && d.deferred != Some("index_knowledge")
    && d.backend != OptionOr(t.options, "capability_backend", "mcp")
  }

  predicate Misrouted(t: Trial) {
    exists i | 0 <= i < |LogOf(t)| :: WrongAction(t, LogOf(t)[i]) || WrongCapability(t, LogOf(t)[i])
  }

  predicate IsReadStart(t: Trial, d: Dispatch) {
    d.event == "start" && d.callId.Some? && BareTool(d.tool) in t.tools.readers
  }

  /** The calls of reading tools, which the world observations have to cover. */
  function ExpectedCalls(t: Trial): Option<set<string>> {
    if WorldOn(t) then Some(set d | d in LogOf(t) && IsReadStart(t, d) :: d.callId.value) else None
  }

  function DeclaredTotals(w: World): Option<map<WorldReceipts.Total, int>> {
    if w.summary.Summary? then Some(w.summary.totals) else None
  }

  ghost predicate WorldSound(t: Trial) {
    && WorldReceipts.WorldValid(t.world.rows, t.world.projections, t.world.unreadable,
                                DeclaredTotals(t.world), ExpectedCalls(t))
    && !t.world.summary.BadSummary?
    && (WorldOn(t) ==> t.world.summary.Summary? && t.world.summary.healthy && t.backend.Some?)
  }

  // ---------- dynamic tools ----------

  const CONFIGURE := "configure_odoo_tools"
  const DYNAMIC_TOOLS := {"list_odoo_capabilities", CONFIGURE}

  predicate IsConfiguration(e: ToolEvents.Event) {
    e.event == ToolEvents.END && e.tool == Some(CONFIGURE) && e.success && e.published.Some?
  }

  /** The first request that answers the call. */
  function Delivered(contracts: seq<Contract>, call: Option<string>): Option<Contract> {
    if contracts == [] then None
    else if call.Some? && call.value in contracts[0].answers then Some(contracts[0])
    else Delivered(contracts[1..], call)
  }

  /** The tools of a configuration reached the provider with the announced digest. */
  predicate Published(contracts: seq<Contract>, e: ToolEvents.Event)
    requires IsConfiguration(e)
  {
    var d := Delivered(contracts, e.callId);
    d.Some? && d.value.names == e.published.value && e.contract == Some(d.value.digest)
  }

  /** The sequence numbers of configurations are read without a check. */
  predicate ConfigurationsNumbered(t: Trial) {
    t.dynamicTools.Some? ==>
      forall e | e in t.dynamicTools.value.events && IsConfiguration(e) :: e.endSequence.Some?
  }

  predicate DynamicValid(t: Trial) {
    t.dynamicTools.Some? && !t.dynamicTools.value.readErrors
    && ToolEvents.Closed(t.dynamicTools.value.events, DYNAMIC_TOOLS)
  }

  predicate PublishVerified(t: Trial) {
    && DynamicValid(t)
    && (exists e | e in t.dynamicTools.value.events :: IsConfiguration(e))
    && forall e | e in t.dynamicTools.value.events && IsConfiguration(e) :: Published(t.contracts, e)
  }

  // ---------- operating procedures ----------

  function SopOrdering(t: Trial): Option<Sop.Ordering> {
    match t.sop
    case None => Some(Sop.Ordering(false, false, false))
    case Some(log) => Sop.OrderingOf(log.events, log.readErrors, LogOf(t), t.tools.sideEffects)
  }

  // ---------- the verdict ----------

  predicate LocallyStopped(t: Trial) {
    t.localStops || t.stopReason in {"error", "aborted", "length"}
  }

  /** The second branch: with a result file, any one of these denies a natural end. */
  ghost predicate Vetoed(t: Trial)
    requires SopOrdering(t).Some?
  {
    || t.stopReason == "toolUse"
    || (t.backend.Some? && Unfinished(t.backend.value) > 0)
    || (t.requests.Some? && t.requests.value.requests - t.requests.value.responses != {})
    || Misrouted(t)
    || !RuntimeValid(t)
    || (NativeActions(t) && (!LedgerValid(t) || HasUnresolved(t)))
    || (WorldOn(t) && !WorldSound(t))
    || (SopControlled(t) && (!SopOrdering(t).value.valid || !SopOrdering(t).value.readBeforeMutation))
    || (DynamicTools(t) && (t.contractErrors || !DynamicValid(t) || !PublishVerified(t)))
  }

  /** `key not in options or returned.get(key) == options[key]` */
  predicate Echoed(t: Trial, key: string) {
    key in t.options ==> key in ReturnedOf(t).fields && ReturnedOf(t).fields[key] == t.options[key]
  }

  const ECHOED := {"action_backend", "capability_backend", "sop_mode", "tool_mode", "runtime_mode",
                   "world_mode"}

  predicate SnapshotConfirmed(t: Trial) {
    && "snapshot_sha256" in t.options && t.options["snapshot_sha256"] != ""
    && "snapshot_sha256" in ReturnedOf(t).fields
    && ReturnedOf(t).fields["snapshot_sha256"] == t.options["snapshot_sha256"]
    && t.snapshot.digest == Some(t.options["snapshot_sha256"])
    && t.snapshot.status == Some("verified")
  }

  predicate CountsBalanced(t: Trial) {
    && t.requests.Some? && t.backend.Some?
    && ReturnedOf(t).modelCalls == t.closureCalls == Some(|t.requests.value.requests|)
    && Unfinished(t.backend.value) == 0 && Unmatched(t.backend.value) == 0
    && MissingIds(t.backend.value) == 0
    && t.requests.value.requests - t.requests.value.responses == {}
    && t.requests.value.responses - t.requests.value.requests == {}
  }

  /** The third branch. */
  predicate Complete(t: Trial) {
    && t.stopReason == "stop" && !t.lastToolCalls
    && "read_backend" in t.options && t.options["read_backend"] in {"mcp", "native"}
    && "read_backend" in ReturnedOf(t).fields
    && ReturnedOf(t).fields["read_backend"] == t.options["read_backend"]
    && (forall key | key in ECHOED :: Echoed(t, key))
    && SnapshotConfirmed(t)
    && RuntimeValid(t)
    && CountsBalanced(t)
  }

  /** `natural_end`: None is `Unknown`, and `Raised` stands for a report that breaks off. */
  ghost function EndOf(t: Trial): Verdict {
    if SopOrdering(t).None? || !ConfigurationsNumbered(t) then Raised
    else if LocallyStopped(t) then Unnatural
    else if t.result.Some? && Vetoed(t) then Unnatural
    else if Complete(t) then Natural
    else Unknown
  }

  method WorldCheck(t: Trial) returns (ok: bool)
    ensures ok <==> WorldSound(t)
  {
    var integrity := WorldReceipts.CheckWorld(t.world.rows, t.world.projections, t.world.unreadable,
                                              DeclaredTotals(t.world), ExpectedCalls(t));
    ok := integrity.valid;
    if t.world.summary.BadSummary? {
      ok := false;
    }
    if WorldOn(t) && t.world.summary.NoSummary? {
      ok := false;
    }
    if WorldOn(t) && t.backend.None? {
      ok := false;
    }
    if WorldOn(t) && !(t.world.summary.Summary? && t.world.summary.healthy) {
      ok := false;
    }
  }

  /** The verdict as `report_trial` forms it from the parts of the report. */
  method ReportEnd(t: Trial) returns (v: Verdict)
    ensures v == EndOf(t)
    ensures v == Natural ==> Certified(t)
  {
    var ordering := SopOrdering(t);
    if ordering.None? || !ConfigurationsNumbered(t) {
      return Raised;
    }
    var world := WorldCheck(t);
    var unfinished := if t.backend.Some? then Unfinished(t.backend.value) else 0;
    var unanswered := if t.requests.Some? then t.requests.value.requests - t.requests.value.responses else {};
    if LocallyStopped(t) {
      v := Unnatural;
    } else if t.result.Some?
              && (t.stopReason == "toolUse" || unfinished > 0 || unanswered != {} || Misrouted(t)
                  || !RuntimeValid(t)
                  || (NativeActions(t) && (!LedgerValid(t) || HasUnresolved(t)))
                  || (WorldOn(t) && !world)
                  || (SopControlled(t) && (!ordering.value.valid || !ordering.value.readBeforeMutation))
                  || (DynamicTools(t) && (t.contractErrors || !DynamicValid(t) || !PublishVerified(t)))) {
      v := Unnatural;
    } else if Complete(t) {
      v := Natural;
      NaturalIsCertified(t);
    } else {
      v := Unknown;
    }
  }

  // ---------- what a natural end certifies ----------

  /** Dispatches started and ended alike, every row has an id, and everything went to the backend it
      was configured for. */
  ghost predicate DispatchesClosed(t: Trial) {
    && t.backend.Some? && Started(t.backend.value) == Ended(t.backend.value)
    && forall d | d in t.backend.value ::
         && d.callId.Some? && d.callId.value != ""
         && !WrongAction(t, d) && !WrongCapability(t, d)
  }

  /** Every request has its response, and the agent's, the receipt's and the directory's counts of
      model calls agree. */
  ghost predicate RequestsClosed(t: Trial) {
    && t.requests.Some? && t.requests.value.requests == t.requests.value.responses
    && t.result.Some? && t.result.value.modelCalls == Some(|t.requests.value.requests|)
    && t.closureCalls == Some(|t.requests.value.requests|)
  }

  /** The action ledger is the one that was summarised, and no action in it is left open. */
  ghost predicate LedgerSettled(t: Trial) {
    && t.ledgerSummary.Some? && t.ledger.Some? && SummaryMatches(t.ledgerSummary.value, t.ledger.value)
    && forall r | r in t.ledger.value.rows.value :: r.status !in UNRESOLVED
  }

  /** The world's observations are an exact cover of the dispatched reads. */
  ghost predicate WorldCovered(t: Trial) {
    && t.backend.Some? && t.world.summary.Summary? && t.world.summary.healthy
    && (forall call :: WorldReceipts.Observed(t.world.rows, call) <==> ReadCalled(t, call))
    && WorldReceipts.Unrepeated(t.world.rows)
    && WorldReceipts.DeclaredRight(Some(t.world.summary.totals), t.world.rows, t.world.projections)
  }

  ghost predicate ReadCalled(t: Trial, call: string) {
    exists d | d in LogOf(t) :: IsReadStart(t, d) && d.callId.value == call
  }

  /** Procedures were listed and then read before the first numbered mutation. */
  ghost predicate SopFollowed(t: Trial) {
    && t.sop.Some?
    && ToolEvents.PerfectMatching(t.sop.value.events, {Sop.LIST, Sop.GET})
    && (exists l :: Sop.ListsFirst(t.sop.value.events, l))
    && (exists g :: Sop.ReadsFirst(t.sop.value.events, g, LogOf(t), t.tools.sideEffects))
  }

  /** Every configuration of tools, and there is one, reached the provider as announced. */
  ghost predicate ToolsPublished(t: Trial) {
    && t.dynamicTools.Some? && !t.contractErrors
    && ToolEvents.PerfectMatching(t.dynamicTools.value.events, DYNAMIC_TOOLS)
    && (exists e :: e in t.dynamicTools.value.events && IsConfiguration(e))
    && forall e | e in t.dynamicTools.value.events && IsConfiguration(e) :: Published(t.contracts, e)
  }

  ghost predicate Certified(t: Trial) {
    && t.result.Some? && !t.localStops && t.stopReason == "stop" && !t.lastToolCalls
    && DispatchesClosed(t) && RequestsClosed(t) && SnapshotConfirmed(t)
    && (forall key | key in ECHOED :: Echoed(t, key))
    && (NativeRuntime(t) ==> t.runtime.Some? && RuntimeAbsent(t.runtime.value))
    && (NativeActions(t) ==> LedgerSettled(t))
    && (WorldOn(t) ==> WorldCovered(t))
    && (SopControlled(t) ==> SopFollowed(t))
    && (DynamicTools(t) ==> ToolsPublished(t))
  }

  lemma {:induction false} StatusesMembers(rows: seq<LedgerRow>, s: string)
    ensures s in Statuses(rows) <==> exists r :: r in rows && r.status == s
  {
    if rows != [] {
      var n := |rows| - 1;
      StatusesMembers(rows[..n], s);
      assert rows == rows[..n] + [rows[n]];
      assert rows[n] in rows;
    }
  }

  lemma ResultFileNeeded(t: Trial)
    requires Complete(t)
    ensures t.result.Some?
  {
  }

  lemma LedgerIsSettled(t: Trial)
    requires NativeActions(t) && LedgerValid(t) && !HasUnresolved(t)
    ensures LedgerSettled(t)
  {
    var rows := t.ledger.value.rows.value;
    forall r | r in rows
      ensures r.status !in UNRESOLVED
    {
      StatusesMembers(rows, r.status);
    }
  }

  lemma DispatchesAreClosed(t: Trial)
    requires CountsBalanced(t) && !Misrouted(t)
    ensures DispatchesClosed(t)
  {
    var log := t.backend.value;
    BalancedIsEqual(log);
    NoneMissing(log);
    forall d | d in log
      ensures !WrongAction(t, d) && !WrongCapability(t, d)
    {
      var i :| 0 <= i < |log| && log[i] == d;
      assert LogOf(t)[i] == d;
    }
  }

  lemma RequestsAreClosed(t: Trial)
    requires CountsBalanced(t) && t.result.Some?
    ensures RequestsClosed(t)
  {
    var requests, responses := t.requests.value.requests, t.requests.value.responses;
    forall x
      ensures x in requests <==> x in responses
    {
      assert x !in requests - responses && x !in responses - requests;
    }
  }

  lemma WorldIsCovered(t: Trial)
    requires WorldOn(t) && WorldSound(t)
    ensures WorldCovered(t)
  {
    var expected := ExpectedCalls(t).value;
    forall call
      ensures call in expected <==> ReadCalled(t, call)
    {
    }
  }

  lemma SopIsFollowed(t: Trial)
    requires SopOrdering(t).Some? && SopOrdering(t).value.readBeforeMutation
    ensures SopFollowed(t)
  {
    var log := t.sop.value;
    Sop.OrderingMeans(log.events, log.readErrors, LogOf(t), t.tools.sideEffects);
    ToolEvents.ClosedIsMatching(log.events, {Sop.LIST, Sop.GET});
  }

  lemma ToolsArePublished(t: Trial)
    requires !t.contractErrors && PublishVerified(t)
    ensures ToolsPublished(t)
  {
    ToolEvents.ClosedIsMatching(t.dynamicTools.value.events, DYNAMIC_TOOLS);
  }

  /** A natural end is a certificate. */
  lemma NaturalIsCertified(t: Trial)
    requires EndOf(t) == Natural
    ensures Certified(t)
  {
    ResultFileNeeded(t);
    DispatchesAreClosed(t);
    RequestsAreClosed(t);
    if NativeActions(t) {
      LedgerIsSettled(t);
    }
    if WorldOn(t) {
      WorldIsCovered(t);
    }
    if SopControlled(t) {
      SopIsFollowed(t);
    }
    if DynamicTools(t) {
      ToolsArePublished(t);
    }
  }

  /** Without a result file no trial is found natural, and none is denied except by the model's own
      last message or a local stop. */
  lemma NoResultFile(t: Trial)
    requires t.result.None? && EndOf(t) != Raised
    ensures EndOf(t) == if LocallyStopped(t) then Unnatural else Unknown
  {
  }
}
