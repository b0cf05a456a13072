/** Start and end rows of dispatched tools, and the check that they pair up. */
module ToolEvents {
  import opened Wrappers
  import Counting

  /** A row of a tool log.  An absent field, or one of another type, is None. */
  datatype Event = Event(event: string, callId: Option<string>, tool: Option<string>,
                         sequence: Option<int>, endSequence: Option<int>, success: bool,
                         sopId: Option<string>, published: Option<seq<string>>,
                         contract: Option<string>)

  const START := "start"
  const END := "end"

  function OfKind(events: seq<Event>, kind: string): seq<Event> {
    if events == [] then []
    else
      var n := |events| - 1;
      OfKind(events[..n], kind) + if events[n].event == kind then [events[n]] else []
  }

  function Ids(events: seq<Event>): (r: seq<Option<string>>)
    ensures |r| == |events| && forall i | 0 <= i < |r| :: r[i] == events[i].callId
  {
    seq(|events|, i requires 0 <= i < |events| => events[i].callId)
  }

  /** `{event.get("tool_call_id"): event for event in events}.get(id)` */
  function LastWith(events: seq<Event>, id: Option<string>): Option<Event> {
    if events == [] then None
    else if events[|events| - 1].callId == id then Some(events[|events| - 1])
    else LastWith(events[..|events| - 1], id)
  }

  /** A start and an end of the same call. */
  predicate Pairs(start: Event, end: Event, allowed: set<string>) {
    && start.tool == end.tool
    && start.tool.Some? && start.tool.value in allowed
    && start.sequence.Some? && end.endSequence.Some?
    && start.sequence.value < end.endSequence.value
  }

  predicate PairsById(starts: seq<Event>, ends: seq<Event>, id: Option<string>, allowed: set<string>) {
    var s, e := LastWith(starts, id), LastWith(ends, id);
    s.Some? && e.Some? && Pairs(s.value, e.value, allowed)
  }

  predicate Named(id: Option<string>) {
    id.Some? && id.value != ""
  }

  predicate EachOnce(ids: multiset<Option<string>>) {
    forall id | id in ids :: ids[id] == 1
  }

  /** The validity flag of `_closed_tool_events`, by counters. */
  predicate Closed(events: seq<Event>, allowed: set<string>) {
    var starts, ends := OfKind(events, START), OfKind(events, END);
    var started, ended := multiset(Ids(starts)), multiset(Ids(ends));
    && events != [] && |events| == |starts| + |ends|
    && (forall id | id in started :: Named(id))
    && started == ended && EachOnce(started)
    && forall id | id in started :: PairsById(starts, ends, id, allowed)
  }

  // ---------- what closed means ----------

  ghost predicate IsOf(events: seq<Event>, i: int, kind: string) {
    0 <= i < |events| && events[i].event == kind
  }

  /** No two rows of the kind are of one call. */
  ghost predicate Separate(events: seq<Event>, kind: string) {
    forall i, j | IsOf(events, i, kind) && IsOf(events, j, kind) && i < j ::
      events[i].callId != events[j].callId
  }

  ghost predicate Matches(events: seq<Event>, allowed: set<string>, i: int, j: int) {
    && IsOf(events, i, START) && IsOf(events, j, END)
    && events[i].callId == events[j].callId && Pairs(events[i], events[j], allowed)
  }

  ghost predicate HasEnd(events: seq<Event>, allowed: set<string>, i: int) {
    exists j :: Matches(events, allowed, i, j)
  }

  ghost predicate HasStart(events: seq<Event>, allowed: set<string>, j: int) {
    exists i :: Matches(events, allowed, i, j)
  }

  /** A perfect matching: every row is a named start or end, every start has its end and every end
      its start, with an allowed tool and in the right order, and no call has two of either. */
  ghost predicate PerfectMatching(events: seq<Event>, allowed: set<string>) {
    && events != []
    && (forall k | 0 <= k < |events| :: events[k].event in {START, END} && Named(events[k].callId))
    && Separate(events, START) && Separate(events, END)
    && (forall i | IsOf(events, i, START) :: HasEnd(events, allowed, i))
    && (forall j | IsOf(events, j, END) :: HasStart(events, allowed, j))
  }

  /** The filtered rows, by their positions in the log. */
  lemma {:induction false} KindMembers(events: seq<Event>, kind: string, id: Option<string>)
    ensures id in Ids(OfKind(events, kind)) <==>
            exists i :: IsOf(events, i, kind) && events[i].callId == id
    ensures LastWith(OfKind(events, kind), id).Some? ==>
            exists i :: IsOf(events, i, kind) && events[i].callId == id
                        && events[i] == LastWith(OfKind(events, kind), id).value
    ensures LastWith(OfKind(events, kind), id).None? ==> id !in Ids(OfKind(events, kind))
  {
    if events != [] {
      var n := |events| - 1;
      var front, rows := OfKind(events[..n], kind), OfKind(events, kind);
      KindMembers(events[..n], kind, id);
      assert forall i | 0 <= i < n :: events[..n][i] == events[i];
      if i :| IsOf(events[..n], i, kind) && events[..n][i].callId == id {
        assert IsOf(events, i, kind) && events[i].callId == id;
      }
      if events[n].event == kind {
        assert rows == front + [events[n]];
        assert Ids(rows) == Ids(front) + [events[n].callId];
        assert rows[..|rows| - 1] == front;
        assert IsOf(events, n, kind);
      } else {
        assert rows == front;
      }
      if i :| IsOf(events, i, kind) && events[i].callId == id {
        if i < n { assert IsOf(events[..n], i, kind); }
      }
    }
  }

  lemma {:induction false} KindSeparate(events: seq<Event>, kind: string)
    ensures Separate(events, kind) <==> Counting.NoRepeats(Ids(OfKind(events, kind)))
  {
    if events != [] {
      var n := |events| - 1;
      var front, rows := OfKind(events[..n], kind), OfKind(events, kind);
      KindSeparate(events[..n], kind);
      SeparateStep(events, kind);
      if events[n].event == kind {
        var id := events[n].callId;
        KindMembers(events[..n], kind, id);
        assert Ids(rows) == Ids(front) + [id];
        Counting.NoRepeatsStep(Ids(front), id);
        assert id !in Ids(front) <==> forall i | IsOf(events[..n], i, kind) :: events[..n][i].callId != id;
      } else {
        assert rows == front;
      }
    }
  }

  lemma SeparateStep(events: seq<Event>, kind: string)
    requires events != []
    ensures var n := |events| - 1;
            Separate(events, kind) <==>
            && Separate(events[..n], kind)
            && (events[n].event == kind ==>
                  forall i | IsOf(events[..n], i, kind) :: events[..n][i].callId != events[n].callId)
  {
    var n := |events| - 1;
    assert forall i :: IsOf(events[..n], i, kind) <==> IsOf(events, i, kind) && i < n;
  }

  lemma {:induction false} KindCounts(events: seq<Event>)
    ensures |OfKind(events, START)| + |OfKind(events, END)| <= |events|
    ensures |OfKind(events, START)| + |OfKind(events, END)| == |events| <==>
            forall k | 0 <= k < |events| :: events[k].event in {START, END}
  {
    assert |START| != |END|;
    if events != [] {
      var n := |events| - 1;
      KindCounts(events[..n]);
      assert forall k | 0 <= k < n :: events[..n][k] == events[k];
    }
  }

  /** The counters find exactly the perfect matchings. */
  lemma ClosedIsMatching(events: seq<Event>, allowed: set<string>)
    ensures Closed(events, allowed) <==> PerfectMatching(events, allowed)
  {
    if Closed(events, allowed) {
      ClosedMatches(events, allowed);
    }
    if PerfectMatching(events, allowed) {
      MatchingCloses(events, allowed);
    }
  }

  lemma ClosedMatches(events: seq<Event>, allowed: set<string>)
    requires Closed(events, allowed)
    ensures PerfectMatching(events, allowed)
  {
    var starts, ends := OfKind(events, START), OfKind(events, END);
    KindCounts(events);
    KindSeparate(events, START);
    KindSeparate(events, END);
    Counting.EachOnceIff(Ids(starts));
    Counting.EachOnceIff(Ids(ends));
    forall k | 0 <= k < |events|
      ensures Named(events[k].callId)
      ensures IsOf(events, k, START) ==> HasEnd(events, allowed, k)
      ensures IsOf(events, k, END) ==> HasStart(events, allowed, k)
    {
      assert IsOf(events, k, events[k].event);
      ClosedRow(events, allowed, k);
    }
  }

  lemma ClosedRow(events: seq<Event>, allowed: set<string>, k: nat)
    requires Closed(events, allowed) && k < |events| && events[k].event in {START, END}
    requires Separate(events, START) && Separate(events, END)
    ensures Named(events[k].callId)
    ensures IsOf(events, k, START) ==> HasEnd(events, allowed, k)
    ensures IsOf(events, k, END) ==> HasStart(events, allowed, k)
  {
    var id := events[k].callId;
    var starts, ends := OfKind(events, START), OfKind(events, END);
    assert IsOf(events, k, events[k].event);
    KindMembers(events, START, id);
    KindMembers(events, END, id);
    assert id in multiset(Ids(starts));
    assert PairsById(starts, ends, id, allowed);
    var i :| IsOf(events, i, START) && events[i].callId == id && events[i] == LastWith(starts, id).value;
    var j :| IsOf(events, j, END) && events[j].callId == id && events[j] == LastWith(ends, id).value;
    assert Matches(events, allowed, i, j);
    if IsOf(events, k, START) {
      assert k == i;
    } else {
      assert k == j;
    }
  }

  lemma MatchingCloses(events: seq<Event>, allowed: set<string>)
    requires PerfectMatching(events, allowed)
    ensures Closed(events, allowed)
  {
    var starts, ends := OfKind(events, START), OfKind(events, END);
    KindCounts(events);
    KindSeparate(events, START);
    KindSeparate(events, END);
    Counting.EachOnceIff(Ids(starts));
    Counting.EachOnceIff(Ids(ends));
    forall id
      ensures id in Ids(starts) <==> id in Ids(ends)
      ensures id in Ids(starts) ==> Named(id) && PairsById(starts, ends, id, allowed)
    {
      MatchingRow(events, allowed, id);
    }
    Counting.SameMembers(Ids(starts), Ids(ends));
  }

  lemma MatchingRow(events: seq<Event>, allowed: set<string>, id: Option<string>)
    requires PerfectMatching(events, allowed)
    ensures var starts, ends := OfKind(events, START), OfKind(events, END);
            && (id in Ids(starts) <==> id in Ids(ends))
            && (id in Ids(starts) ==> Named(id) && PairsById(starts, ends, id, allowed))
  {
    var starts, ends := OfKind(events, START), OfKind(events, END);
    KindMembers(events, START, id);
    KindMembers(events, END, id);
    if id in Ids(starts) {
      var i :| IsOf(events, i, START) && events[i].callId == id
               && events[i] == LastWith(starts, id).value;
      assert HasEnd(events, allowed, i);
      var j :| Matches(events, allowed, i, j);
      assert IsOf(events, j, END) && events[j].callId == id;
      var j' :| IsOf(events, j', END) && events[j'].callId == id && events[j'] == LastWith(ends, id).value;
      assert j' == j;
    }
    if id in Ids(ends) {
      var j :| IsOf(events, j, END) && events[j].callId == id;
      assert HasStart(events, allowed, j);
      var i :| Matches(events, allowed, i, j);
      assert IsOf(events, i, START) && events[i].callId == id;
    }
  }

  // ---------- in terms of the rows ----------

  /** Row `j` ends the call that row `i` starts: the same allowed tool, at a later number. */
  ghost predicate Ends(events: seq<Event>, allowed: set<string>, i: int, j: int) {
    && 0 <= i < |events| && 0 <= j < |events|
    && events[i].event == "start" && events[j].event == "end" && events[i].callId == events[j].callId
    && events[i].tool.Some? && events[j].tool == events[i].tool && events[i].tool.value in allowed
    && events[i].sequence.Some? && events[j].endSequence.Some?
    && events[i].sequence.value < events[j].endSequence.value
  }

  /** The log is not empty, every row is a start or an end of a named call, no call has two of either, every
      start has its end, and every end its start. */
  ghost predicate Paired(events: seq<Event>, allowed: set<string>) {
    && events != []
    && (forall k | 0 <= k < |events| ::
          && (events[k].event == "start" || events[k].event == "end")
          && events[k].callId.Some? && events[k].callId.value != "")
    && (forall i, j | 0 <= i < j < |events| && events[i].event == events[j].event ::
          events[i].callId != events[j].callId)
    && (forall i | 0 <= i < |events| && events[i].event == "start" :: exists j :: Ends(events, allowed, i, j))
    && (forall j | 0 <= j < |events| && events[j].event == "end" :: exists i :: Ends(events, allowed, i, j))
  }

  lemma MatchingIsPaired(events: seq<Event>, allowed: set<string>)
    requires PerfectMatching(events, allowed)
    ensures Paired(events, allowed)
  {
    forall i | 0 <= i < |events|
      ensures events[i].event == "start" ==> exists j :: Ends(events, allowed, i, j)
      ensures events[i].event == "end" ==> exists j :: Ends(events, allowed, j, i)
    {
      if IsOf(events, i, START) {
        assert HasEnd(events, allowed, i);
        var j :| Matches(events, allowed, i, j);
        assert Ends(events, allowed, i, j);
      }
      if IsOf(events, i, END) {
        assert HasStart(events, allowed, i);
        var j :| Matches(events, allowed, j, i);
        assert Ends(events, allowed, j, i);
      }
    }
    forall i, j | 0 <= i < j < |events| && events[i].event == events[j].event
      ensures events[i].callId != events[j].callId
    {
      assert IsOf(events, i, events[i].event) && IsOf(events, j, events[i].event);
    }
  }

  lemma PairedIsMatching(events: seq<Event>, allowed: set<string>)
    requires Paired(events, allowed)
    ensures PerfectMatching(events, allowed)
  {
    forall i | 0 <= i < |events|
      ensures IsOf(events, i, START) ==> HasEnd(events, allowed, i)
      ensures IsOf(events, i, END) ==> HasStart(events, allowed, i)
    {
      if IsOf(events, i, START) {
        var j :| Ends(events, allowed, i, j);
        assert Matches(events, allowed, i, j);
      }
      if IsOf(events, i, END) {
        var j :| Ends(events, allowed, j, i);
        assert Matches(events, allowed, j, i);
      }
    }
  }

  /** The check, in terms of the rows. */
  lemma ClosedMeans(events: seq<Event>, allowed: set<string>)
    ensures Closed(events, allowed) <==> Paired(events, allowed)
  {
    ClosedIsMatching(events, allowed);
    if PerfectMatching(events, allowed) {
      MatchingIsPaired(events, allowed);
    }
    if Paired(events, allowed) {
      PairedIsMatching(events, allowed);
    }
  }

  /** In a valid log a start and an end of one call belong together. */
  lemma SameCallEnds(events: seq<Event>, allowed: set<string>, i: nat, j: nat)
    requires Closed(events, allowed) && i < |events| && j < |events|
    requires events[i].event == "start" && events[j].event == "end" && events[i].callId == events[j].callId
    ensures Ends(events, allowed, i, j)
  {
    ClosedMeans(events, allowed);
    var k :| Ends(events, allowed, i, k);
    assert k == j;
  }
}
