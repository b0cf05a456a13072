/** World observation receipts against the calls that were dispatched. */
module WorldReceipts {
  import opened Wrappers
  import Counting

  datatype Target = Target(model: string, records: seq<int>, relations: nat)

  /** A row of the observation log; `Malformed` stands for any row that fails the schema. */
  datatype Observation =
    | Invalidation(identitiesListed: bool)
    | Malformed
    | Read(receipt: string, call: string, identity: string, success: bool, targets: seq<Target>,
           stale: bool)

  /** A row of the projection log; an absent field, or one of another type, is None. */
  datatype Projection = Projection(calls: Option<seq<string>>, messages: Option<int>,
                                   original: Option<int>, projected: Option<int>)

  datatype Total =
    | Observations | Successful | Failed | Records | Relations
    | ProjectionCalls | ProjectedMessages | OriginalBytes | ProjectedBytes

  datatype Fault =
    | Unreadable | BadInvalidation | BadObservation | BadProjection
    | UnknownCalls | MissingCalls | OrphanCalls

  datatype Integrity = Integrity(valid: bool, faults: seq<Fault>, duplicateReceipts: set<string>,
                                 duplicateCalls: set<string>, unknown: set<string>,
                                 missing: set<string>, orphans: set<string>, mismatches: set<Total>)

  // ---------- the rows that count ----------

  predicate WellFormed(o: Observation) {
    o.Read? || (o.Invalidation? && o.identitiesListed)
  }

  function Reads(rows: seq<Observation>): (r: seq<Observation>)
    ensures forall i | 0 <= i < |r| :: r[i].Read?
  {
    if rows == [] then []
    else
      var n := |rows| - 1;
      Reads(rows[..n]) + if rows[n].Read? then [rows[n]] else []
  }

  predicate Sized(n: Option<int>) {
    n.Some? && n.value >= 0
  }

  predicate Sound(p: Projection) {
    && p.calls.Some? && p.messages == Some(|p.calls.value|)
    && Sized(p.messages) && Sized(p.original) && Sized(p.projected)
  }

  function SoundOnes(rows: seq<Projection>): (r: seq<Projection>)
    ensures forall p | p in r :: Sound(p)
  {
    if rows == [] then []
    else
      var n := |rows| - 1;
      SoundOnes(rows[..n]) + if Sound(rows[n]) then [rows[n]] else []
  }

  function Receipts(gets: seq<Observation>): seq<string>
    requires forall i | 0 <= i < |gets| :: gets[i].Read?
  {
    seq(|gets|, i requires 0 <= i < |gets| => gets[i].receipt)
  }

  function Calls(gets: seq<Observation>): seq<string>
    requires forall i | 0 <= i < |gets| :: gets[i].Read?
  {
    seq(|gets|, i requires 0 <= i < |gets| => gets[i].call)
  }

  // ---------- totals ----------

  function SuccessCount(gets: seq<Observation>): nat
    requires forall i | 0 <= i < |gets| :: gets[i].Read?
  {
    if gets == [] then 0
    else SuccessCount(gets[..|gets| - 1]) + if gets[|gets| - 1].success then 1 else 0
  }

  function FailureCount(gets: seq<Observation>): nat
    requires forall i | 0 <= i < |gets| :: gets[i].Read?
  {
    if gets == [] then 0
    else FailureCount(gets[..|gets| - 1]) + if gets[|gets| - 1].success then 0 else 1
  }

  /** Every observation is counted as a success or as a failure. */
  lemma {:induction false} CountsAddUp(gets: seq<Observation>)
    requires forall i | 0 <= i < |gets| :: gets[i].Read?
    ensures SuccessCount(gets) + FailureCount(gets) == |gets|
  {
    if gets != [] {
      CountsAddUp(gets[..|gets| - 1]);
    }
  }

  /** The distinct records of the reads that were not merged as stale. */
  function RecordSet(gets: seq<Observation>): set<(string, string, int)>
    requires forall i | 0 <= i < |gets| :: gets[i].Read?
  {
    set i, j, k | 0 <= i < |gets| && !gets[i].stale && 0 <= j < |gets[i].targets|
                  && 0 <= k < |gets[i].targets[j].records| ::
      (gets[i].identity, gets[i].targets[j].model, gets[i].targets[j].records[k])
  }

  function TargetRelations(targets: seq<Target>): nat {
    if targets == [] then 0
    else TargetRelations(targets[..|targets| - 1]) + targets[|targets| - 1].relations
  }

  function RelationCount(gets: seq<Observation>): nat
    requires forall i | 0 <= i < |gets| :: gets[i].Read?
  {
    if gets == [] then 0
    else RelationCount(gets[..|gets| - 1]) + TargetRelations(gets[|gets| - 1].targets)
  }

  function SumOf(sound: seq<Projection>, field: Projection -> Option<int>): int {
    if sound == [] then 0
    else SumOf(sound[..|sound| - 1], field) + field(sound[|sound| - 1]).GetOr(0)
  }

  function Computed(gets: seq<Observation>, sound: seq<Projection>, t: Total): int
    requires forall i | 0 <= i < |gets| :: gets[i].Read?
  {
    match t
    case Observations => |gets|
    case Successful => SuccessCount(gets)
    case Failed => FailureCount(gets)
    case Records => |RecordSet(gets)|
    case Relations => RelationCount(gets)
    case ProjectionCalls => |sound|
    case ProjectedMessages => SumOf(sound, (p: Projection) => p.messages)
    case OriginalBytes => SumOf(sound, (p: Projection) => p.original)
    case ProjectedBytes => SumOf(sound, (p: Projection) => p.projected)
  }

  const TOTALS := {Observations, Successful, Failed, Records, Relations, ProjectionCalls,
                   ProjectedMessages, OriginalBytes, ProjectedBytes}

  function Mismatches(declared: Option<map<Total, int>>, gets: seq<Observation>, sound: seq<Projection>)
    : set<Total>
    requires forall i | 0 <= i < |gets| :: gets[i].Read?
  {
    match declared
    case None => {}
    case Some(d) => set t | t in TOTALS && !(t in d && d[t] == Computed(gets, sound, t))
  }

  /** The relations of an observation are those of all its targets. */
  lemma RelationsAdd(targets: seq<Target>, x: Target)
    ensures TargetRelations([]) == 0 && TargetRelations(targets + [x]) == TargetRelations(targets) + x.relations
  {
    assert (targets + [x])[..|targets|] == targets;
  }

  /** What one more observation adds to each total, and that nothing adds up to nothing. */
  lemma ObservationAdds(gets: seq<Observation>, o: Observation, sound: seq<Projection>)
    requires o.Read? && forall i | 0 <= i < |gets| :: gets[i].Read?
    ensures var all := gets + [o];
            && Computed(all, sound, Observations) == Computed(gets, sound, Observations) + 1
            && Computed(all, sound, Successful) == Computed(gets, sound, Successful) + (if o.success then 1 else 0)
            && Computed(all, sound, Failed) == Computed(gets, sound, Failed) + (if o.success then 0 else 1)
            && Computed(all, sound, Relations) == Computed(gets, sound, Relations) + TargetRelations(o.targets)
            && RecordSet(all) == RecordSet(gets) + RecordSet([o])
            && (forall t | t in {ProjectionCalls, ProjectedMessages, OriginalBytes, ProjectedBytes} ::
                  Computed(all, sound, t) == Computed(gets, sound, t))
    ensures forall t | t in {Observations, Successful, Failed, Records, Relations} :: Computed([], sound, t) == 0
  {
    var all := gets + [o];
    assert all[..|gets|] == gets;
    RecordsGrow(gets, o);
  }

  lemma RecordsGrow(gets: seq<Observation>, o: Observation)
    requires o.Read? && forall i | 0 <= i < |gets| :: gets[i].Read?
    ensures RecordSet(gets + [o]) == RecordSet(gets) + RecordSet([o])
  {
    var all := gets + [o];
    forall r
      ensures r in RecordSet(all) <==> r in RecordSet(gets) || r in RecordSet([o])
    {
      RecordsSeen(all, r.0, r.1, r.2);
      RecordsSeen(gets, r.0, r.1, r.2);
      RecordsSeen([o], r.0, r.1, r.2);
      assert forall x :: x in all <==> x in gets || x == o;
    }
  }

  /** What one more projection adds. */
  lemma ProjectionAdds(gets: seq<Observation>, sound: seq<Projection>, p: Projection)
    requires forall i | 0 <= i < |gets| :: gets[i].Read?
    requires p.messages.Some? && p.original.Some? && p.projected.Some?
    ensures var all := sound + [p];
            && Computed(gets, all, ProjectionCalls) == Computed(gets, sound, ProjectionCalls) + 1
            && Computed(gets, all, ProjectedMessages) == Computed(gets, sound, ProjectedMessages) + p.messages.value
            && Computed(gets, all, OriginalBytes) == Computed(gets, sound, OriginalBytes) + p.original.value
            && Computed(gets, all, ProjectedBytes) == Computed(gets, sound, ProjectedBytes) + p.projected.value
            && (forall t | t in {Observations, Successful, Failed, Records, Relations} ::
                  Computed(gets, all, t) == Computed(gets, sound, t))
    ensures forall t | t in {ProjectionCalls, ProjectedMessages, OriginalBytes, ProjectedBytes} ::
              Computed(gets, [], t) == 0
  {
    assert (sound + [p])[..|sound|] == sound;
  }

  /** The records seen: those in a target of an observation that was not merged as stale. */
  lemma RecordsSeen(gets: seq<Observation>, identity: string, model: string, record: int)
    requires forall i | 0 <= i < |gets| :: gets[i].Read?
    ensures (identity, model, record) in RecordSet(gets) <==>
            exists o, target :: o in gets && target in o.targets && !o.stale && o.identity == identity
                                && target.model == model && record in target.records
  {
    if (identity, model, record) in RecordSet(gets) {
      var i, j, k :| 0 <= i < |gets| && !gets[i].stale && 0 <= j < |gets[i].targets|
                     && 0 <= k < |gets[i].targets[j].records|
                     && (identity, model, record) ==
                        (gets[i].identity, gets[i].targets[j].model, gets[i].targets[j].records[k]);
      assert gets[i] in gets && gets[i].targets[j] in gets[i].targets;
    }
    if o, target :| o in gets && target in o.targets && !o.stale && o.identity == identity
                    && target.model == model && record in target.records {
      var i :| 0 <= i < |gets| && gets[i] == o;
      var j :| 0 <= j < |o.targets| && o.targets[j] == target;
      var k :| 0 <= k < |target.records| && target.records[k] == record;
      assert gets[i].targets[j].records[k] == record && !gets[i].stale;
    }
  }

  // ---------- what valid receipts guarantee ----------

  ghost predicate IsReadOf(rows: seq<Observation>, i: int, call: string) {
    0 <= i < |rows| && rows[i].Read? && rows[i].call == call
  }

  /** No two observations share a receipt or a call. */
  ghost predicate Unrepeated(rows: seq<Observation>) {
    forall i, j | 0 <= i < j < |rows| && rows[i].Read? && rows[j].Read? ::
      rows[i].receipt != rows[j].receipt && rows[i].call != rows[j].call
  }

  ghost predicate Observed(rows: seq<Observation>, call: string) {
    exists i :: IsReadOf(rows, i, call)
  }

  /** The observations are, one for one, those of the expected calls. */
  ghost predicate ExactCover(rows: seq<Observation>, expected: set<string>) {
    && Unrepeated(rows)
    && forall call :: Observed(rows, call) <==> call in expected
  }

  ghost predicate ProjectionsKnown(rows: seq<Observation>, projections: seq<Projection>) {
    forall p, call | p in projections && p.calls.Some? && call in p.calls.value :: Observed(rows, call)
  }

  /** Everything declared equals what the rows add up to. */
  ghost predicate DeclaredRight(declared: Option<map<Total, int>>, rows: seq<Observation>,
                                projections: seq<Projection>) {
    declared.Some? ==>
      forall t :: t in declared.value
                  && declared.value[t] == Computed(Reads(rows), SoundOnes(projections), t)
  }

  ghost predicate WorldValid(rows: seq<Observation>, projections: seq<Projection>, unreadable: nat,
                             declared: Option<map<Total, int>>, expected: Option<set<string>>) {
    && unreadable == 0
    && (forall o | o in rows :: WellFormed(o)) && (forall p | p in projections :: Sound(p))
    && Unrepeated(rows) && ProjectionsKnown(rows, projections)
    && (expected.Some? ==> ExactCover(rows, expected.value))
    && DeclaredRight(declared, rows, projections)
  }

  // ---------- the check ----------

  function Faults(n: nat, f: Fault): (r: seq<Fault>)
    ensures |r| == n
  {
    seq(n, _ => f)
  }

  /** The first loop: observations that pass the schema, and a fault for each row that does not. */
  method CollectReads(rows: seq<Observation>) returns (gets: seq<Observation>, faults: seq<Fault>)
    ensures gets == Reads(rows)
    ensures faults == [] <==> forall o | o in rows :: WellFormed(o)
  {
    gets, faults := [], [];
    for i := 0 to |rows|
      invariant gets == Reads(rows[..i])
      invariant faults == [] <==> forall o | o in rows[..i] :: WellFormed(o)
    {
      assert rows[..i + 1] == rows[..i] + [rows[i]] && rows[..i + 1][..i] == rows[..i];
      assert forall o :: o in rows[..i + 1] <==> o in rows[..i] || o == rows[i];
      assert rows[i] in rows[..i + 1];
      match rows[i]
      case Invalidation(listed) =>
        if !listed {
          faults := faults + [BadInvalidation];
        }
      case Malformed =>
        faults := faults + [BadObservation];
      case Read(_, _, _, _, _, _) =>
        gets := gets + [rows[i]];
    }
    assert rows[..|rows|] == rows;
  }

  /** The second loop, over the projections. */
  method CollectProjections(rows: seq<Projection>) returns (sound: seq<Projection>, faults: seq<Fault>)
    ensures sound == SoundOnes(rows)
    ensures faults == [] <==> forall p | p in rows :: Sound(p)
  {
    sound, faults := [], [];
    for i := 0 to |rows|
      invariant sound == SoundOnes(rows[..i])
      invariant faults == [] <==> forall p | p in rows[..i] :: Sound(p)
    {
      assert rows[..i + 1] == rows[..i] + [rows[i]] && rows[..i + 1][..i] == rows[..i];
      if Sound(rows[i]) {
        sound := sound + [rows[i]];
      } else {
        faults := faults + [BadProjection];
      }
    }
    assert rows[..|rows|] == rows;
  }

  /** `{key for key, count in Counter(ids).items() if count > 1}` */
  function Duplicates(ids: seq<string>): set<string> {
    set id | id in ids && multiset(ids)[id] > 1
  }

  lemma NoDuplicates(ids: seq<string>)
    ensures Duplicates(ids) == {} <==> Counting.NoRepeats(ids)
  {
    Counting.EachOnceIff(ids);
    if Duplicates(ids) == {} {
      forall x | x in multiset(ids)
        ensures multiset(ids)[x] == 1
      {
        assert x !in Duplicates(ids);
      }
    } else {
      var x :| x in Duplicates(ids);
      assert x in multiset(ids) && multiset(ids)[x] != 1;
    }
  }

  lemma {:induction false} ReadsOf(rows: seq<Observation>, call: string)
    ensures call in Calls(Reads(rows)) <==> Observed(rows, call)
  {
    if rows != [] {
      var n := |rows| - 1;
      ReadsOf(rows[..n], call);
      assert forall i :: IsReadOf(rows[..n], i, call) <==> IsReadOf(rows, i, call) && i < n;
      if rows[n].Read? {
        assert Calls(Reads(rows)) == Calls(Reads(rows[..n])) + [rows[n].call];
        assert rows[n].call == call ==> IsReadOf(rows, n, call);
      } else {
        assert Reads(rows) == Reads(rows[..n]);
      }
    }
  }

  ghost predicate ReceiptsApart(rows: seq<Observation>, o: Observation)
    requires o.Read?
  {
    forall i | 0 <= i < |rows| && rows[i].Read? :: rows[i].receipt != o.receipt && rows[i].call != o.call
  }

  lemma {:induction false} ReadsApart(rows: seq<Observation>, o: Observation)
    requires o.Read?
    ensures ReceiptsApart(rows, o) <==>
            o.receipt !in Receipts(Reads(rows)) && o.call !in Calls(Reads(rows))
  {
    if rows != [] {
      var n := |rows| - 1;
      ReadsApart(rows[..n], o);
      assert ReceiptsApart(rows, o) <==>
             ReceiptsApart(rows[..n], o)
             && (rows[n].Read? ==> rows[n].receipt != o.receipt && rows[n].call != o.call);
      if rows[n].Read? {
        assert Calls(Reads(rows)) == Calls(Reads(rows[..n])) + [rows[n].call];
        assert Receipts(Reads(rows)) == Receipts(Reads(rows[..n])) + [rows[n].receipt];
      } else {
        assert Reads(rows) == Reads(rows[..n]);
      }
    }
  }

  lemma {:induction false} UnrepeatedReads(rows: seq<Observation>)
    ensures Unrepeated(rows) <==>
            Counting.NoRepeats(Receipts(Reads(rows))) && Counting.NoRepeats(Calls(Reads(rows)))
  {
    if rows != [] {
      var n := |rows| - 1;
      var front := Reads(rows[..n]);
      UnrepeatedReads(rows[..n]);
      if rows[n].Read? {
        ReadsApart(rows[..n], rows[n]);
        assert Calls(Reads(rows)) == Calls(front) + [rows[n].call];
        assert Receipts(Reads(rows)) == Receipts(front) + [rows[n].receipt];
        Counting.NoRepeatsStep(Calls(front), rows[n].call);
        Counting.NoRepeatsStep(Receipts(front), rows[n].receipt);
        UnrepeatedStep(rows);
      } else {
        assert Reads(rows) == front;
        UnrepeatedStep(rows);
      }
    }
  }

  lemma UnrepeatedStep(rows: seq<Observation>)
    requires rows != []
    ensures var n := |rows| - 1;
            Unrepeated(rows) <==>
            Unrepeated(rows[..n]) && (rows[n].Read? ==> ReceiptsApart(rows[..n], rows[n]))
  {
    var n := |rows| - 1;
    assert forall i | 0 <= i < n :: rows[..n][i] == rows[i];
  }

  function ProjectedCalls(sound: seq<Projection>): set<string>
    requires forall p | p in sound :: p.calls.Some?
  {
    set i, j | 0 <= i < |sound| && 0 <= j < |sound[i].calls.value| :: sound[i].calls.value[j]
  }

  lemma {:induction false} AllSound(rows: seq<Projection>)
    requires forall p | p in rows :: Sound(p)
    ensures SoundOnes(rows) == rows
  {
    if rows != [] {
      AllSound(rows[..|rows| - 1]);
    }
  }

  lemma KnownCalls(rows: seq<Observation>, projections: seq<Projection>)
    requires forall p | p in projections :: p.calls.Some?
    ensures ProjectedCalls(projections) - Counting.Elements(Calls(Reads(rows))) == {} <==>
            ProjectionsKnown(rows, projections)
  {
    var known := Counting.Elements(Calls(Reads(rows)));
    Counting.NothingBeyond(ProjectedCalls(projections), known);
    forall call
      ensures call in known <==> Observed(rows, call)
    {
      ReadsOf(rows, call);
    }
    forall p, call | p in projections && call in p.calls.value
      ensures call in ProjectedCalls(projections)
    {
      var i :| 0 <= i < |projections| && projections[i] == p;
      var j :| 0 <= j < |p.calls.value| && p.calls.value[j] == call;
      assert projections[i].calls.value[j] == call;
    }
  }

  /** The part of the check that compares the sets of calls. */
  lemma CoverIsExact(rows: seq<Observation>, expected: set<string>)
    requires Unrepeated(rows)
    ensures var calls := Counting.Elements(Calls(Reads(rows)));
            expected - calls == {} && calls - expected == {} <==> ExactCover(rows, expected)
  {
    var calls := Counting.Elements(Calls(Reads(rows)));
    forall call
      ensures call in calls <==> Observed(rows, call)
    {
      ReadsOf(rows, call);
    }
    if expected - calls == {} && calls - expected == {} {
      forall call
        ensures Observed(rows, call) <==> call in expected
      {
        assert call !in expected - calls && call !in calls - expected;
      }
    }
  }

  lemma NoMismatch(declared: Option<map<Total, int>>, rows: seq<Observation>, projections: seq<Projection>)
    ensures Mismatches(declared, Reads(rows), SoundOnes(projections)) == {} <==>
            DeclaredRight(declared, rows, projections)
  {
    forall t: Total
      ensures t in TOTALS
    {
      match t {
        case Observations | Successful | Failed | Records | Relations =>
        case ProjectionCalls | ProjectedMessages | OriginalBytes | ProjectedBytes =>
      }
    }
    var m := Mismatches(declared, Reads(rows), SoundOnes(projections));
    if declared.Some? && m == {} {
      forall t
        ensures t in declared.value
                && declared.value[t] == Computed(Reads(rows), SoundOnes(projections), t)
      {
        assert t !in m;
      }
    }
  }

  /** The ids the check looks at, and the verdict it forms of them. */
  predicate CallsAgree(rows: seq<Observation>, projections: seq<Projection>, expected: Option<set<string>>) {
    var gets, sound := Reads(rows), SoundOnes(projections);
    var observed := Counting.Elements(Calls(gets));
    && Duplicates(Receipts(gets)) == {} && Duplicates(Calls(gets)) == {}
    && ProjectedCalls(sound) - observed == {}
    && expected.GetOr({}) - observed == {}
    && (expected.Some? ==> observed - expected.value == {})
  }

  lemma CallsAgreeMeans(rows: seq<Observation>, projections: seq<Projection>, expected: Option<set<string>>)
    requires forall p | p in projections :: Sound(p)
    ensures CallsAgree(rows, projections, expected) <==>
            && Unrepeated(rows) && ProjectionsKnown(rows, projections)
            && (expected.Some? ==> ExactCover(rows, expected.value))
  {
    var gets := Reads(rows);
    NoDuplicates(Receipts(gets));
    NoDuplicates(Calls(gets));
    UnrepeatedReads(rows);
    AllSound(projections);
    KnownCalls(rows, projections);
    if Unrepeated(rows) && expected.Some? {
      CoverIsExact(rows, expected.value);
    }
  }

  /** The comparison of call ids. */
  method CompareCalls(gets: seq<Observation>, sound: seq<Projection>, expected: Option<set<string>>)
    returns (faults: seq<Fault>, unknown: set<string>, missing: set<string>, orphans: set<string>)
    requires forall i | 0 <= i < |gets| :: gets[i].Read?
    requires forall p | p in sound :: p.calls.Some?
    ensures var observed := Counting.Elements(Calls(gets));
            && unknown == ProjectedCalls(sound) - observed
            && missing == expected.GetOr({}) - observed
            && orphans == if expected.Some? then observed - expected.value else {}
    ensures faults == [] <==> unknown == {} && missing == {} && orphans == {}
  {
    var observed := Counting.Elements(Calls(gets));
    faults := [];
    unknown := ProjectedCalls(sound) - observed;
    if unknown != {} {
      faults := faults + [UnknownCalls];
    }
    missing := expected.GetOr({}) - observed;
    orphans := if expected.Some? then observed - expected.value else {};
    if missing != {} {
      faults := faults + [MissingCalls];
    }
    if orphans != {} {
      faults := faults + [OrphanCalls];
    }
  }

  /** `_world_receipts`: valid exactly if every row is well-formed, the observations are an exact
      cover of the expected calls, projections mention observed calls only, and the declared totals
      are the recomputed ones. */
  method CheckWorld(rows: seq<Observation>, projections: seq<Projection>, unreadable: nat,
                    declared: Option<map<Total, int>>, expected: Option<set<string>>)
    returns (r: Integrity)
    ensures r.valid <==> WorldValid(rows, projections, unreadable, declared, expected)
    ensures expected.Some? ==>
              && (forall call :: call in r.missing <==> call in expected.value && !Observed(rows, call))
              && (forall call :: call in r.orphans <==> call !in expected.value && Observed(rows, call))
  {
    var gets, badRows := CollectReads(rows);
    var sound, badProjections := CollectProjections(projections);
    var receipts, calls := Duplicates(Receipts(gets)), Duplicates(Calls(gets));
    var wrongCalls, unknown, missing, orphans := CompareCalls(gets, sound, expected);
    var mismatches := Mismatches(declared, gets, sound);
    var faults := Faults(unreadable, Unreadable) + badRows + badProjections + wrongCalls;
    r := Integrity(faults == [] && receipts == {} && calls == {} && mismatches == {},
                   faults, receipts, calls, unknown, missing, orphans, mismatches);
    assert |faults| == unreadable + |badRows| + |badProjections| + |wrongCalls|;
    assert CallsAgree(rows, projections, expected) <==> receipts == {} && calls == {} && wrongCalls == [];
    assert faults == [] <==>
           unreadable == 0 && badRows == [] && badProjections == [] && wrongCalls == [];
    assert r.valid <==>
           && unreadable == 0 && badRows == [] && badProjections == []
           && CallsAgree(rows, projections, expected) && mismatches == {};
    if badProjections == [] {
      CallsAgreeMeans(rows, projections, expected);
    }
    NoMismatch(declared, rows, projections);
    forall call
      ensures call in Counting.Elements(Calls(gets)) <==> Observed(rows, call)
    {
      ReadsOf(rows, call);
    }
  }

  /** With valid receipts each expected call has one observation, and nothing else was observed. */
  lemma CoveredOnce(rows: seq<Observation>, projections: seq<Projection>, unreadable: nat,
                    declared: Option<map<Total, int>>, expected: set<string>, call: string)
    returns (i: nat)
    requires WorldValid(rows, projections, unreadable, declared, Some(expected)) && call in expected
    ensures IsReadOf(rows, i, call)
    ensures forall j | IsReadOf(rows, j, call) :: j == i
  {
    assert Observed(rows, call);
    i :| IsReadOf(rows, i, call);
  }

  /** The positions of the observations, and of those that succeeded or failed. */
  function ReadPositions(rows: seq<Observation>): set<nat> {
    set i: nat | i < |rows| && rows[i].Read?
  }

  function PositionsWith(rows: seq<Observation>, success: bool): set<nat> {
    set i: nat | i < |rows| && rows[i].Read? && rows[i].success == success
  }

  lemma ReadsGrow(rows: seq<Observation>, n: nat)
    requires n + 1 == |rows|
    ensures |ReadPositions(rows)| == |ReadPositions(rows[..n])| + if rows[n].Read? then 1 else 0
  {
    var before := ReadPositions(rows[..n]);
    assert n !in before && forall i: nat | i < n :: rows[..n][i] == rows[i];
    assert ReadPositions(rows) == if rows[n].Read? then before + {n} else before;
  }

  lemma PositionsGrow(rows: seq<Observation>, n: nat, success: bool)
    requires n + 1 == |rows|
    ensures |PositionsWith(rows, success)| ==
            |PositionsWith(rows[..n], success)| + if rows[n].Read? && rows[n].success == success then 1 else 0
  {
    var before := PositionsWith(rows[..n], success);
    assert n !in before && forall i: nat | i < n :: rows[..n][i] == rows[i];
    assert PositionsWith(rows, success) ==
           if rows[n].Read? && rows[n].success == success then before + {n} else before;
  }

  lemma {:induction false} CountsArePositions(rows: seq<Observation>)
    ensures |Reads(rows)| == |ReadPositions(rows)|
    ensures SuccessCount(Reads(rows)) == |PositionsWith(rows, true)|
    ensures FailureCount(Reads(rows)) == |PositionsWith(rows, false)|
  {
    if rows != [] {
      var n: nat := |rows| - 1;
      var gets := Reads(rows);
      CountsArePositions(rows[..n]);
      ReadsGrow(rows, n);
      PositionsGrow(rows, n, true);
      PositionsGrow(rows, n, false);
      if rows[n].Read? {
        assert gets[..|gets| - 1] == Reads(rows[..n]) && gets[|gets| - 1] == rows[n];
      } else {
        assert gets == Reads(rows[..n]);
      }
      assert SuccessCount(gets) == SuccessCount(Reads(rows[..n])) + if rows[n].Read? && rows[n].success then 1 else 0;
      assert FailureCount(gets) == FailureCount(Reads(rows[..n])) + if rows[n].Read? && !rows[n].success then 1 else 0;
    }
  }

  /** What valid receipts say of the rows themselves: nothing is malformed or repeated, projections are of
      observed calls and as long as they say, the expected calls are the observed ones, and observations,
      successes and failures are declared as often as there are such rows. */
  lemma ValidMeans(rows: seq<Observation>, projections: seq<Projection>, unreadable: nat,
                   declared: Option<map<Total, int>>, expected: Option<set<string>>)
    requires WorldValid(rows, projections, unreadable, declared, expected)
    ensures unreadable == 0
    ensures forall o | o in rows :: !o.Malformed? && (o.Invalidation? ==> o.identitiesListed)
    ensures forall p | p in projections ::
              && p.calls.Some? && p.messages == Some(|p.calls.value|)
              && p.original.Some? && p.original.value >= 0 && p.projected.Some? && p.projected.value >= 0
              && forall call | call in p.calls.value :: exists o :: o in rows && o.Read? && o.call == call
    ensures forall i, j | 0 <= i < j < |rows| && rows[i].Read? && rows[j].Read? ::
              rows[i].receipt != rows[j].receipt && rows[i].call != rows[j].call
    ensures expected.Some? ==>
              forall call :: call in expected.value <==> exists o :: o in rows && o.Read? && o.call == call
    ensures declared.Some? ==>
              && Observations in declared.value && declared.value[Observations] == |ReadPositions(rows)|
              && Successful in declared.value && declared.value[Successful] == |PositionsWith(rows, true)|
              && Failed in declared.value && declared.value[Failed] == |PositionsWith(rows, false)|
  {
    forall call
      ensures Observed(rows, call) <==> exists o :: o in rows && o.Read? && o.call == call
    {
      if o :| o in rows && o.Read? && o.call == call {
        var i :| 0 <= i < |rows| && rows[i] == o;
        assert IsReadOf(rows, i, call);
      }
      if Observed(rows, call) {
        var i :| IsReadOf(rows, i, call);
        assert rows[i] in rows;
      }
    }
    forall o | o in rows
      ensures !o.Malformed? && (o.Invalidation? ==> o.identitiesListed)
    {
      assert WellFormed(o);
    }
    forall p | p in projections
      ensures p.calls.Some? && p.messages == Some(|p.calls.value|)
      ensures p.original.Some? && p.original.value >= 0 && p.projected.Some? && p.projected.value >= 0
      ensures forall call | call in p.calls.value :: Observed(rows, call)
    {
      assert Sound(p);
    }
    CountsArePositions(rows);
  }
}
