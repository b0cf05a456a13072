/** Whether operating procedures were listed, then read, before the first mutation. */
module Sop {
  import opened Wrappers
  import opened ToolEvents
  import opened Dispatches

  const LIST := "list_odoo_sops"
  const GET := "get_odoo_sop"

  /** The end row of a call of the tool that succeeded and is numbered. */
  predicate Succeeded(e: Event, tool: string) {
    e.event == END && e.tool == Some(tool) && e.success && e.endSequence.Some?
  }

  function Successes(events: seq<Event>, tool: string): (r: seq<Event>)
    ensures forall e :: e in r <==> e in events && Succeeded(e, tool)
  {
    if events == [] then []
    else
      var n := |events| - 1;
      assert events == events[..n] + [events[n]];
      Successes(events[..n], tool) + if Succeeded(events[n], tool) then [events[n]] else []
  }

  /** `min(..., default=None)` */
  function MinOf(s: seq<int>): (r: Option<int>)
    ensures r.None? <==> s == []
    ensures r.Some? ==> r.value in s && forall x | x in s :: r.value <= x
  {
    if s == [] then None
    else
      var n := |s| - 1;
      assert s == s[..n] + [s[n]];
      match MinOf(s[..n])
      case None => Some(s[n])
      case Some(m) => Some(if s[n] < m then s[n] else m)
  }

  function EndSequences(rows: seq<Event>): (r: seq<int>)
    requires forall e | e in rows :: e.endSequence.Some?
    ensures |r| == |rows| && forall i | 0 <= i < |r| :: r[i] == rows[i].endSequence.value
  {
    seq(|rows|, i requires 0 <= i < |rows| => rows[i].endSequence.value)
  }

  /** `event["sequence"]` of every row; the report raises where a row has none. */
  predicate Numbered(rows: seq<Event>) {
    forall e | e in rows :: e.sequence.Some?
  }

  function Sequences(rows: seq<Event>): (r: seq<int>)
    requires Numbered(rows)
    ensures |r| == |rows| && forall i | 0 <= i < |r| :: r[i] == rows[i].sequence.value
  {
    seq(|rows|, i requires 0 <= i < |rows| => rows[i].sequence.value)
  }

  /** Start and end of every call name the same procedure. */
  predicate SameProcedure(events: seq<Event>) {
    var starts, ends := OfKind(events, START), OfKind(events, END);
    forall i | 0 <= i < |starts| ::
      var s, e := LastWith(starts, starts[i].callId), LastWith(ends, starts[i].callId);
      s.Some? && e.Some? && s.value.sopId == e.value.sopId
  }

  predicate ReceiptValid(events: seq<Event>, readErrors: bool) {
    !readErrors && Closed(events, {LIST, GET}) && SameProcedure(events)
  }

  datatype Ordering = Ordering(valid: bool, listBeforeGet: bool, readBeforeMutation: bool)

  /** The ordering part of the report, None where it raises. */
  function OrderingOf(events: seq<Event>, readErrors: bool, log: seq<Dispatch>, sideEffects: set<string>)
    : Option<Ordering>
  {
    var lists, gets := Successes(events, LIST), Successes(events, GET);
    if !Numbered(gets) then None
    else
      var listEnd, readStart := MinOf(EndSequences(lists)), MinOf(Sequences(gets));
      var readEnd, mutation := MinOf(EndSequences(gets)), MinOf(Mutations(log, sideEffects));
      var valid := ReceiptValid(events, readErrors);
      var listed := listEnd.Some? && readStart.Some? && listEnd.value < readStart.value;
      Some(Ordering(valid, listed,
                    valid && listed && readEnd.Some? && (mutation.None? || readEnd.value < mutation.value)))
  }

  // ---------- what the flag means ----------

  /** The listing ended before any procedure began to be read, by the numbers in the end rows. */
  ghost predicate ListsFirst(events: seq<Event>, l: Event) {
    && l in events && Succeeded(l, LIST)
    && forall g | g in events && Succeeded(g, GET) ::
         g.sequence.Some? && l.endSequence.value < g.sequence.value
  }

  /** The procedure was read before anything was changed. */
  ghost predicate ReadsFirst(events: seq<Event>, g: Event, log: seq<Dispatch>, sideEffects: set<string>) {
    && g in events && Succeeded(g, GET)
    && forall d | d in log && IsMutation(d, sideEffects) :: g.endSequence.value < d.sequence.value
  }

  lemma MinAtMost(rows: seq<Event>, e: Event)
    requires e in rows && forall x | x in rows :: x.endSequence.Some?
    ensures MinOf(EndSequences(rows)).Some? && MinOf(EndSequences(rows)).value <= e.endSequence.value
  {
    var i :| 0 <= i < |rows| && rows[i] == e;
    assert EndSequences(rows)[i] in EndSequences(rows);
  }

  lemma EarliestEnd(rows: seq<Event>) returns (e: Event)
    requires rows != [] && forall x | x in rows :: x.endSequence.Some?
    ensures e in rows && MinOf(EndSequences(rows)) == Some(e.endSequence.value)
  {
    var m := MinOf(EndSequences(rows)).value;
    var i :| 0 <= i < |rows| && EndSequences(rows)[i] == m;
    e := rows[i];
  }

  lemma BeforeReads(gets: seq<Event>, x: int)
    requires Numbered(gets) && gets != []
    ensures x < MinOf(Sequences(gets)).value <==> forall g | g in gets :: x < g.sequence.value
  {
    var s := Sequences(gets);
    forall g | g in gets
      ensures MinOf(s).value <= g.sequence.value
    {
      var i :| 0 <= i < |gets| && gets[i] == g;
      assert s[i] in s;
    }
    var i :| 0 <= i < |s| && s[i] == MinOf(s).value;
    assert gets[i] in gets;
  }

  lemma BeforeMutations(log: seq<Dispatch>, sideEffects: set<string>, x: int)
    ensures var m := MinOf(Mutations(log, sideEffects));
            (m.None? || x < m.value) <==>
            forall d | d in log && IsMutation(d, sideEffects) :: x < d.sequence.value
  {
    MutationsMembers(log, sideEffects);
  }

  /** The listing flag: some successful listing ended before every successful reading began. */
  lemma ListedMeans(events: seq<Event>)
    requires Numbered(Successes(events, GET)) && Successes(events, GET) != []
    ensures var lists, gets := Successes(events, LIST), Successes(events, GET);
            (lists != [] && MinOf(EndSequences(lists)).value < MinOf(Sequences(gets)).value) <==>
            exists l :: ListsFirst(events, l)
  {
    var lists, gets := Successes(events, LIST), Successes(events, GET);
    if lists != [] && MinOf(EndSequences(lists)).value < MinOf(Sequences(gets)).value {
      var l := EarliestEnd(lists);
      BeforeReads(gets, l.endSequence.value);
      assert ListsFirst(events, l);
    }
    if l :| ListsFirst(events, l) {
      MinAtMost(lists, l);
      BeforeReads(gets, l.endSequence.value);
    }
  }

  lemma ReadMeans(events: seq<Event>, log: seq<Dispatch>, sideEffects: set<string>)
    requires Successes(events, GET) != []
    ensures var readEnd, mutation :=
              MinOf(EndSequences(Successes(events, GET))), MinOf(Mutations(log, sideEffects));
            (mutation.None? || readEnd.value < mutation.value) <==>
            exists g :: ReadsFirst(events, g, log, sideEffects)
  {
    var gets := Successes(events, GET);
    var g := EarliestEnd(gets);
    BeforeMutations(log, sideEffects, g.endSequence.value);
    var mutation := MinOf(Mutations(log, sideEffects));
    if mutation.None? || g.endSequence.value < mutation.value {
      assert ReadsFirst(events, g, log, sideEffects);
    }
    if g' :| ReadsFirst(events, g', log, sideEffects) {
      MinAtMost(gets, g');
      BeforeMutations(log, sideEffects, g'.endSequence.value);
    }
  }

  /** The flag is true exactly if the receipts are valid, some listing ended before every reading
      began, and some reading ended before every numbered mutation started. */
  lemma OrderingMeans(events: seq<Event>, readErrors: bool, log: seq<Dispatch>, sideEffects: set<string>)
    requires OrderingOf(events, readErrors, log, sideEffects).Some?
    ensures OrderingOf(events, readErrors, log, sideEffects).value.readBeforeMutation <==>
            && ReceiptValid(events, readErrors)
            && (exists l :: ListsFirst(events, l))
            && (exists g :: ReadsFirst(events, g, log, sideEffects))
  {
    if Successes(events, GET) != [] {
      ListedMeans(events);
      ReadMeans(events, log, sideEffects);
    } else if g :| ReadsFirst(events, g, log, sideEffects) {
      assert g in Successes(events, GET);
    }
  }

  /** What a true flag guarantees: one listing and one reading in that order, both before every
      numbered mutation, in a log that is a perfect matching. */
  lemma OrderedRun(events: seq<Event>, readErrors: bool, log: seq<Dispatch>, sideEffects: set<string>)
    returns (l: Event, g: Event)
    requires OrderingOf(events, readErrors, log, sideEffects).Some?
    requires OrderingOf(events, readErrors, log, sideEffects).value.readBeforeMutation
    ensures PerfectMatching(events, {LIST, GET})
    ensures l in events && Succeeded(l, LIST)
    ensures ReadsFirst(events, g, log, sideEffects)
    ensures g.sequence.Some? && l.endSequence.value < g.sequence.value
  {
    OrderingMeans(events, readErrors, log, sideEffects);
    ClosedIsMatching(events, {LIST, GET});
    l :| ListsFirst(events, l);
    g :| ReadsFirst(events, g, log, sideEffects);
  }

  // ---------- start rows ----------

  /** A start row of a successful reading. */
  ghost predicate ReadingStart(events: seq<Event>, s: Event) {
    && s in events && s.event == START
    && exists g | g in events :: Succeeded(g, GET) && g.callId == s.callId
  }

  /** The comparison behind the flag, for a listing that ended at `x`: by the numbers in the end rows. */
  ghost predicate ListedBy(events: seq<Event>, x: int)
    requires Numbered(Successes(events, GET)) && Successes(events, GET) != []
  {
    x < MinOf(Sequences(Successes(events, GET))).value
  }

  /** What one would expect it to say: by the numbers in the start rows. */
  ghost predicate BeforeStarts(events: seq<Event>, x: int) {
    forall s | ReadingStart(events, s) :: s.sequence.Some? && x < s.sequence.value
  }

  /** The smallest number in the end rows of successful readings is at most every number in their
      start rows. */
  ghost predicate StartsCovered(events: seq<Event>)
    requires Numbered(Successes(events, GET)) && Successes(events, GET) != []
  {
    forall s | ReadingStart(events, s) ::
      s.sequence.Some? && MinOf(Sequences(Successes(events, GET))).value <= s.sequence.value
  }

  /** The comparison implies what one would expect of it, for every end number a listing may have, if
      and only if the start rows are covered: otherwise there is an end number at which it holds while
      some reading had already started. */
  lemma ListingReachesStarts(events: seq<Event>)
    requires Numbered(Successes(events, GET)) && Successes(events, GET) != []
    ensures StartsCovered(events) <==> forall x :: ListedBy(events, x) ==> BeforeStarts(events, x)
  {
    var first := MinOf(Sequences(Successes(events, GET))).value;
    if !StartsCovered(events) {
      var s :| ReadingStart(events, s) && !(s.sequence.Some? && first <= s.sequence.value);
      assert ListedBy(events, first - 1) && !BeforeStarts(events, first - 1);
    }
  }

  /** Hence a true flag, where the start rows are covered: one listing ended before every start row of
      a successful reading. */
  lemma ListedBeforeStart(events: seq<Event>, readErrors: bool, log: seq<Dispatch>,
                          sideEffects: set<string>) returns (l: Event)
    requires OrderingOf(events, readErrors, log, sideEffects).Some?
    requires OrderingOf(events, readErrors, log, sideEffects).value.readBeforeMutation
    ensures Successes(events, GET) != [] && l in events && Succeeded(l, LIST)
    ensures StartsCovered(events) ==> BeforeStarts(events, l.endSequence.value)
  {
    OrderingMeans(events, readErrors, log, sideEffects);
    l :| ListsFirst(events, l);
    var gets := Successes(events, GET);
    BeforeReads(gets, l.endSequence.value);
    ListingReachesStarts(events);
    assert ListedBy(events, l.endSequence.value);
  }

  /** The end row repeats the number of its start row. */
  ghost predicate CopiesStart(events: seq<Event>, g: Event) {
    forall s | s in events && s.event == START && s.callId == g.callId :: s.sequence == g.sequence
  }

  /** Rows written as the product writes them, the end row repeating the start number, are covered. */
  lemma CopiesCover(events: seq<Event>)
    requires Numbered(Successes(events, GET)) && Successes(events, GET) != []
    requires forall g | g in events && Succeeded(g, GET) :: CopiesStart(events, g)
    ensures StartsCovered(events)
  {
    var gets := Successes(events, GET);
    forall s | ReadingStart(events, s)
      ensures s.sequence.Some? && MinOf(Sequences(gets)).value <= s.sequence.value
    {
      var g :| g in events && Succeeded(g, GET) && g.callId == s.callId;
      assert CopiesStart(events, g) && g in gets;
      var i :| 0 <= i < |gets| && gets[i] == g;
      assert Sequences(gets)[i] in Sequences(gets);
    }
  }

  function Row(kind: string, id: string, tool: string, sequence: int, end: Option<int>): Event {
    Event(kind, Some(id), Some(tool), Some(sequence), end, true, None, None, None)
  }

  /** A log whose last row gives its call another number than the start row does. */
  const RENUMBERED := [Row(START, "a", LIST, 1, None), Row(END, "a", LIST, 1, Some(5)),
                       Row(START, "b", GET, 2, None), Row(END, "b", GET, 6, Some(7))]

  lemma RenumberedMatches()
    ensures PerfectMatching(RENUMBERED, {LIST, GET})
  {
    assert |START| != |END|;
    assert "a"[0] != "b"[0];
    assert Matches(RENUMBERED, {LIST, GET}, 0, 1) && Matches(RENUMBERED, {LIST, GET}, 2, 3);
    assert HasEnd(RENUMBERED, {LIST, GET}, 0) && HasEnd(RENUMBERED, {LIST, GET}, 2);
    assert HasStart(RENUMBERED, {LIST, GET}, 1) && HasStart(RENUMBERED, {LIST, GET}, 3);
  }

  lemma UnnamedAgree(events: seq<Event>)
    requires Closed(events, {LIST, GET}) && forall e | e in events :: e.sopId.None?
    ensures SameProcedure(events)
  {
    var starts, ends := OfKind(events, START), OfKind(events, END);
    forall i | 0 <= i < |starts|
      ensures var s, e := LastWith(starts, starts[i].callId), LastWith(ends, starts[i].callId);
              s.Some? && e.Some? && s.value.sopId == e.value.sopId
    {
      assert starts[i].callId == Ids(starts)[i];
      assert PairsById(starts, ends, starts[i].callId, {LIST, GET});
      KindMembers(events, START, starts[i].callId);
      KindMembers(events, END, starts[i].callId);
    }
  }

  lemma RenumberedValid()
    ensures ReceiptValid(RENUMBERED, false)
  {
    RenumberedMatches();
    ClosedIsMatching(RENUMBERED, {LIST, GET});
    UnnamedAgree(RENUMBERED);
  }

  lemma RenumberedOrder(sideEffects: set<string>)
    ensures forall e | e in RENUMBERED :: e.sequence.Some?
    ensures ListsFirst(RENUMBERED, RENUMBERED[1])
    ensures ReadsFirst(RENUMBERED, RENUMBERED[3], [], sideEffects)
    ensures forall l | l in RENUMBERED && Succeeded(l, LIST) :: l == RENUMBERED[1]
  {
    assert |LIST| != |GET| && |START| != |END|;
    assert RENUMBERED[1] in RENUMBERED && RENUMBERED[3] in RENUMBERED;
  }

  /** Without that repetition the flag does not speak about start rows: here it is true, yet the only
      reading started, by its start row, before the only listing ended. */
  lemma FlagTrustsEndRows(sideEffects: set<string>)
    ensures var o := OrderingOf(RENUMBERED, false, [], sideEffects);
            o.Some? && o.value.readBeforeMutation
    ensures RENUMBERED[2].event == START && RENUMBERED[2].tool == Some(GET)
    ensures forall l | l in RENUMBERED && Succeeded(l, LIST) ::
              RENUMBERED[2].sequence.value < l.endSequence.value
  {
    RenumberedValid();
    RenumberedOrder(sideEffects);
    OrderingMeans(RENUMBERED, false, [], sideEffects);
  }
}
