/** Prepared candidates: their verification against the frozen cases, and the paid pool that sends
    them. */
module Prepared {
  import opened Wrappers
  import opened JsonTree
  import opened Store
  import opened Patches
  import opened Freeze
  import opened Provenance
  import Counting

  datatype Arm = BaselineArm | CandidateArm

  function ArmName(arm: Arm): string {
    if arm == BaselineArm then "baseline" else "candidate"
  }

  // ---------- reading the records ----------

  function TextItems(items: seq<Json>): Option<seq<string>> {
    if items == [] then Some([])
    else if !items[0].Text? then None
    else
      match TextItems(items[1..])
      case None => None
      case Some(rest) => Some([items[0].text] + rest)
  }

  function TextList(v: Option<Json>): Option<seq<string>> {
    match v
    case Some(Arr(items)) => TextItems(items)
    case _ => None
  }

  function PatchOf(v: Json): Option<Patch> {
    match (TextMember(v, "path"), TextMember(v, "before_sha256"), TextMember(v, "after_sha256"))
    case (Some(path), Some(before), Some(after)) =>
      Some(Patch(path, before, after, TextMember(v, "producer").GetOr("")))
    case _ => None
  }

  function PatchItems(items: seq<Json>): Option<seq<Patch>> {
    if items == [] then Some([])
    else
      match (PatchOf(items[0]), PatchItems(items[1..]))
      case (Some(p), Some(rest)) => Some([p] + rest)
      case _ => None
  }

  function PatchList(v: Option<Json>): Option<seq<Patch>> {
    match v
    case Some(Arr(items)) => PatchItems(items)
    case _ => None
  }

  /** `manifest["allowed_patch_paths"] + policy.get(case, [])` */
  function Whitelist(codec: Codec, files: Files, policy: Json, id: string): Option<seq<string>> {
    match ReadDoc(codec, files, CaseFile(id, "manifest.json"))
    case None => None
    case Some(manifest) =>
      var extra := if Member(policy, id).None? then Some([]) else TextList(Member(policy, id));
      match (TextList(Member(manifest, "allowed_patch_paths")), extra)
      case (Some(own), Some(more)) => Some(own + more)
      case _ => None
  }

  /** The text is an element of this list. */
  predicate Listed(v: Option<Json>, text: string) {
    v.Some? && v.value.Arr? && Text(text) in v.value.items
  }

  lemma {:induction false} TextItemsListed(items: seq<Json>, text: string)
    requires TextItems(items).Some?
    ensures text in TextItems(items).value <==> Text(text) in items
  {
    if items != [] {
      TextItemsListed(items[1..], text);
      assert items == [items[0]] + items[1..];
    }
  }

  /** A pointer may be patched exactly if the manifest of the case lists it or the policy does for this
      case. */
  lemma WhitelistMeans(codec: Codec, files: Files, policy: Json, id: string, pointer: string)
    requires Whitelist(codec, files, policy, id).Some?
    ensures ReadDoc(codec, files, CaseFile(id, "manifest.json")).Some?
    ensures var manifest := ReadDoc(codec, files, CaseFile(id, "manifest.json")).value;
            pointer in Whitelist(codec, files, policy, id).value <==>
            Listed(Member(manifest, "allowed_patch_paths"), pointer) || Listed(Member(policy, id), pointer)
  {
    var manifest := ReadDoc(codec, files, CaseFile(id, "manifest.json")).value;
    TextItemsListed(Member(manifest, "allowed_patch_paths").value.items, pointer);
    if Member(policy, id).Some? {
      TextItemsListed(Member(policy, id).value.items, pointer);
    }
  }

  // ---------- verify_prepared ----------

  /** The documents of one prepared case, as they are read for verification. */
  datatype Bundle = Bundle(request: Json, baseline: Json, candidate: Json,
                           patches: seq<Patch>, allowed: seq<string>)

  function LoadBundle(codec: Codec, files: Files, policy: Json, id: string): Option<Bundle> {
    match (ReadDoc(codec, files, CaseFile(id, "request.json")),
           ReadDoc(codec, files, PreparedCase(id, "baseline.json")),
           ReadDoc(codec, files, PreparedCase(id, "candidate.json")))
    case (Some(request), Some(baseline), Some(candidate)) =>
      (match (PatchList(ReadDoc(codec, files, PreparedCase(id, "patches.json"))),
              Whitelist(codec, files, policy, id))
       case (Some(patches), Some(allowed)) => Some(Bundle(request, baseline, candidate, patches, allowed))
       case _ => None)
    case _ => None
  }

  /** The prepared case is the frozen request, its declared candidate, and the recorded digests. */
  ghost predicate PreparedCaseOk(codec: Codec, files: Files, policy: Json, id: string, values: Json) {
    match LoadBundle(codec, files, policy, id)
    case None => false
    case Some(b) =>
      && b.baseline == b.request
      && Some(codec.Fingerprint(b.baseline)) == TextMember(values, "baseline")
      && Some(codec.Fingerprint(b.candidate)) == TextMember(values, "candidate")
      && Matches(codec, files, PreparedCase(id, "patches.json"), TextMember(values, "patches"))
      && Declared(codec.Fingerprint, b.baseline, b.candidate, b.patches, b.allowed)
  }

  method VerifyPreparedCase(codec: Codec, files: Files, policy: Json, id: string, values: Json)
    returns (ok: bool)
    ensures ok <==> PreparedCaseOk(codec, files, policy, id, values)
  {
    var loaded := LoadBundle(codec, files, policy, id);
    if loaded.None? {
      return false;
    }
    var b := loaded.value;
    if b.baseline != b.request {
      return false;
    }
    if Some(codec.Fingerprint(b.baseline)) != TextMember(values, "baseline")
       || Some(codec.Fingerprint(b.candidate)) != TextMember(values, "candidate")
       || !Matches(codec, files, PreparedCase(id, "patches.json"), TextMember(values, "patches")) {
      return false;
    }
    var verdict := ValidatePatches(codec.Fingerprint, b.baseline, b.candidate, b.patches, b.allowed);
    return verdict.Pass?;
  }

  /** The listed repository sources still have the digests recorded at preparation. */
  ghost predicate SourcesIntact(codec: Codec, files: Files, table: map<string, Json>) {
    forall name | name in table :: Matches(codec, files, SourceFile(name), TextMember(Obj(table), name))
  }

  function Merged(record: Json): Option<map<string, Json>> {
    match (Member(record, "producer_files"), Member(record, "experiment_files"))
    case (Some(Obj(a)), Some(Obj(b))) => Some(a + b)
    case _ => None
  }

  function CaseTable(record: Json): Option<map<string, Json>> {
    match Member(record, "cases")
    case Some(Obj(table)) => Some(table)
    case _ => None
  }

  function PolicyTable(codec: Codec, files: Files): Json {
    Member(ReadDoc(codec, files, PolicyFile).GetOr(Null), "additional_paths").GetOr(Null)
  }

  /** Everything `verify_prepared` checks against the preparation record. */
  ghost predicate PreparedOk(codec: Codec, files: Files, record: Json) {
    && Intact(codec, files) && Traced(codec, files)
    && Matches(codec, files, ProvenanceFile, TextMember(record, "provenance_sha256"))
    && Matches(codec, files, FreezeFile, TextMember(record, "freeze_sha256"))
    && Matches(codec, files, PolicyFile, TextMember(record, "policy_sha256"))
    && Merged(record).Some? && SourcesIntact(codec, files, Merged(record).value)
    && CaseTable(record).Some?
    && PolicyTable(codec, files).Obj?
    && forall id | id in CaseTable(record).value ::
         PreparedCaseOk(codec, files, PolicyTable(codec, files), id, CaseTable(record).value[id])
  }

  method VerifySources(codec: Codec, files: Files, table: map<string, Json>) returns (ok: bool)
    ensures ok <==> SourcesIntact(codec, files, table)
  {
    var left := table.Keys;
    while left != {}
      invariant left <= table.Keys
      invariant forall name | name in table.Keys - left ::
                  Matches(codec, files, SourceFile(name), TextMember(Obj(table), name))
    {
      var name :| name in left;
      if !Matches(codec, files, SourceFile(name), TextMember(Obj(table), name)) {
        return false;
      }
      left := left - {name};
    }
    return true;
  }

  /** The record holds the digest of the file under this key. */
  ghost predicate Digested(codec: Codec, files: Files, path: FilePath, record: Json, key: string) {
    path in files && Member(record, key) == Some(Text(codec.digest(files[path])))
  }

  /** `verify_prepared`: the digest table of the record, or a refusal. */
  method VerifyPrepared(codec: Codec, files: Files) returns (cases: Option<map<string, Json>>)
    ensures cases.Some? <==>
            ReadDoc(codec, files, PreparedFile).Some?
            && PreparedOk(codec, files, ReadDoc(codec, files, PreparedFile).value)
    ensures cases.Some? ==> cases == CaseTable(ReadDoc(codec, files, PreparedFile).value)
    ensures cases.Some? ==> Intact(codec, files) && Traced(codec, files)
    ensures cases.Some? ==>
              var record := ReadDoc(codec, files, PreparedFile).value;
              && Digested(codec, files, FreezeFile, record, "freeze_sha256")
              && Digested(codec, files, ProvenanceFile, record, "provenance_sha256")
              && Digested(codec, files, PolicyFile, record, "policy_sha256")
    ensures cases.Some? ==>
              var policy := codec.parse(files[PolicyFile]);
              && policy.Some? && policy.value.Obj? && "additional_paths" in policy.value.fields
              && policy.value.fields["additional_paths"].Obj?
  {
    var frozen := Verify(codec, files);
    var record := ReadDoc(codec, files, PreparedFile);
    if frozen.None? || record.None? {
      return None;
    }
    var provenance := VerifyProvenance(codec, files);
    if provenance.None? {
      return None;
    }
    if !Matches(codec, files, ProvenanceFile, TextMember(record.value, "provenance_sha256"))
       || !Matches(codec, files, FreezeFile, TextMember(record.value, "freeze_sha256"))
       || !Matches(codec, files, PolicyFile, TextMember(record.value, "policy_sha256")) {
      return None;
    }
    var policy := PolicyTable(codec, files);
    var sources := Merged(record.value);
    var table := CaseTable(record.value);
    if sources.None? || table.None? || !policy.Obj? {
      return None;
    }
    var intact := VerifySources(codec, files, sources.value);
    if !intact {
      return None;
    }
    var left := table.value.Keys;
    while left != {}
      invariant left <= table.value.Keys
      invariant forall id | id in table.value.Keys - left ::
                  PreparedCaseOk(codec, files, policy, id, table.value[id])
    {
      var id :| id in left;
      var ok := VerifyPreparedCase(codec, files, policy, id, table.value[id]);
      if !ok {
        return None;
      }
      left := left - {id};
    }
    return table;
  }

  // ---------- tamper evidence ----------

  /** The listed file of the repository is in both states, unchanged. */
  ghost predicate Same(before: Files, after: Files, path: FilePath) {
    path in before && path in after && before[path] == after[path]
  }

  /** Two states that both verify against one preparation record agree, byte for byte, on the frozen pool,
      its provenance, the policy, and every source the record lists. */
  lemma RecordPins(codec: Codec, before: Files, after: Files, record: Json)
    requires codec.Faithful() && PreparedOk(codec, before, record) && PreparedOk(codec, after, record)
    ensures Same(before, after, FreezeFile) && Same(before, after, ProvenanceFile) && Same(before, after, PolicyFile)
    ensures forall group, name | group in {"producer_files", "experiment_files"} && Member(record, group).Some?
                                 && name in Fields(Member(record, group).value) ::
              Same(before, after, SourceFile(name))
  {
    forall group, name | group in {"producer_files", "experiment_files"} && Member(record, group).Some?
                         && name in Fields(Member(record, group).value)
      ensures Same(before, after, SourceFile(name))
    {
      var table := Merged(record).value;
      assert name in table;
      assert Matches(codec, before, SourceFile(name), TextMember(Obj(table), name));
      assert Matches(codec, after, SourceFile(name), TextMember(Obj(table), name));
    }
  }

  function Fields(v: Json): map<string, Json> {
    if v.Obj? then v.fields else map[]
  }

  /** And on every case it lists: the request, both prepared documents, and the patch file. */
  lemma RecordPinsCase(codec: Codec, before: Files, after: Files, record: Json, id: string)
    requires codec.Faithful() && PreparedOk(codec, before, record) && PreparedOk(codec, after, record)
    requires id in CaseTable(record).value
    ensures forall path | path in {CaseFile(id, "request.json"), PreparedCase(id, "baseline.json"),
                                   PreparedCase(id, "candidate.json")} ::
              ReadDoc(codec, before, path).Some? && ReadDoc(codec, before, path) == ReadDoc(codec, after, path)
    ensures ReadDoc(codec, before, PreparedCase(id, "baseline.json")) ==
            ReadDoc(codec, before, CaseFile(id, "request.json"))
    ensures Same(before, after, PreparedCase(id, "patches.json"))
  {
    var values := CaseTable(record).value[id];
    assert PreparedCaseOk(codec, before, PolicyTable(codec, before), id, values);
    assert PreparedCaseOk(codec, after, PolicyTable(codec, after), id, values);
    var b := LoadBundle(codec, before, PolicyTable(codec, before), id).value;
    var a := LoadBundle(codec, after, PolicyTable(codec, after), id).value;
    FingerprintInjective(codec, b.baseline, a.baseline);
    FingerprintInjective(codec, b.candidate, a.candidate);
  }

  // ---------- run ----------

  /** The check before sending: `digest(canonical(payload)) == prepared[case][arm]`. */
  predicate Vetted(codec: Codec, prepared: map<string, Json>, id: string, arm: Arm, payload: Json) {
    id in prepared && Some(codec.Fingerprint(payload)) == TextMember(prepared[id], ArmName(arm))
  }

  /** What the pool finds when it comes to a case and arm: the marker, the bytes of the prepared
      file at that moment, and how the attempt ends.  Nothing ties these to the verified state. */
  datatype Moment = Moment(started: bool, file: Option<Bytes>, inconclusive: bool)

  datatype Sending = Sending(id: string, arm: Arm, payload: Json)

  datatype Stop = Completed | Rejected | Replay | Unreadable | PayloadChanged | Inconclusive

  /** The document in the prepared file at that moment. */
  function Payload(codec: Codec, m: Moment): Option<Json> {
    if m.file.None? then None else codec.parse(m.file.value)
  }

  /** What the pool sends for a case and arm: an unstarted, readable, unchanged payload. */
  predicate Sendable(codec: Codec, prepared: map<string, Json>, id: string, arm: Arm, m: Moment) {
    !m.started && m.file.Some? &&
    match codec.parse(m.file.value)
    case None => false
    case Some(payload) => Vetted(codec, prepared, id, arm, payload)
  }

  function Row(id: string, arms: seq<Arm>): seq<(string, Arm)> {
    seq(|arms|, i requires 0 <= i < |arms| => (id, arms[i]))
  }

  /** The order of the two loops: every arm of the first case, then of the next. */
  function Order(cases: seq<string>, arms: seq<Arm>): seq<(string, Arm)> {
    if cases == [] then [] else Order(cases[..|cases| - 1], arms) + Row(cases[|cases| - 1], arms)
  }

  function Slots(sent: seq<Sending>): seq<(string, Arm)> {
    seq(|sent|, i requires 0 <= i < |sent| => (sent[i].id, sent[i].arm))
  }

  lemma {:induction false} OrderCovers(cases: seq<string>, arms: seq<Arm>)
    ensures forall slot :: slot in Order(cases, arms) <==> slot.0 in cases && slot.1 in arms
  {
    if cases != [] {
      var n := |cases| - 1;
      OrderCovers(cases[..n], arms);
      assert cases == cases[..n] + [cases[n]];
      forall slot
        ensures slot in Row(cases[n], arms) <==> slot.0 == cases[n] && slot.1 in arms
      {
        if slot.0 == cases[n] && slot.1 in arms {
          var i :| 0 <= i < |arms| && arms[i] == slot.1;
          assert Row(cases[n], arms)[i] == slot;
        }
      }
    }
  }

  /** The loops visit every selected case and arm once. */
  lemma {:induction false} OrderDistinct(cases: seq<string>, arms: seq<Arm>)
    requires Counting.NoRepeats(cases) && Counting.NoRepeats(arms)
    ensures Counting.NoRepeats(Order(cases, arms))
  {
    if cases != [] {
      var n := |cases| - 1;
      var front, row := Order(cases[..n], arms), Row(cases[n], arms);
      OrderDistinct(cases[..n], arms);
      OrderCovers(cases[..n], arms);
      forall i, j | 0 <= i < |front| && 0 <= j < |row|
        ensures front[i] != row[j]
      {
        assert front[i] in front;
        var k :| 0 <= k < n && cases[..n][k] == front[i].0;
        assert cases[k] != cases[n];
      }
    }
  }

  /** One case and arm of the pool. */
  method Attempt(codec: Codec, prepared: map<string, Json>, id: string, arm: Arm, m: Moment)
    returns (sent: Option<Json>, stop: Stop)
    ensures sent == if Sendable(codec, prepared, id, arm, m) then codec.parse(m.file.value) else None
    ensures Sendable(codec, prepared, id, arm, m) ==> sent.Some?
    ensures stop == Completed <==> sent.Some? && !m.inconclusive
    ensures stop == Inconclusive <==> sent.Some? && m.inconclusive
    ensures stop == Replay <==> m.started
    ensures stop == Unreadable <==> !m.started && Payload(codec, m).None?
    ensures stop == PayloadChanged <==>
            !m.started && Payload(codec, m).Some? && !Vetted(codec, prepared, id, arm, Payload(codec, m).value)
    ensures stop != Rejected
  {
    if m.started {
      return None, Replay;
    }
    var payload := Payload(codec, m);
    if payload.None? {
      return None, Unreadable;
    }
    if !Vetted(codec, prepared, id, arm, payload.value) {
      return None, PayloadChanged;
    }
    return payload, if m.inconclusive then Inconclusive else Completed;
  }

  /** The next slot of the order is not sendable when the pool comes to it, for this reason. */
  ghost predicate Blocked(codec: Codec, prepared: map<string, Json>, world: (string, Arm) -> Moment,
                          order: seq<(string, Arm)>, n: nat, stop: Stop) {
    && n < |order|
    && var (id, arm) := order[n];
       var m := world(id, arm);
       && (stop == Replay <==> m.started)
       && (stop == Unreadable <==> !m.started && Payload(codec, m).None?)
       && (stop == PayloadChanged ==>
             Payload(codec, m).Some? && !Vetted(codec, prepared, id, arm, Payload(codec, m).value))
  }

  /** Everything sent was sendable, and only a last answer that ended the pool was inconclusive. */
  ghost predicate SentSoFar(codec: Codec, prepared: map<string, Json>, world: (string, Arm) -> Moment,
                            sent: seq<Sending>, stop: Stop) {
    && (forall i | 0 <= i < |sent| :: SentWell(codec, prepared, world, sent[i]))
    && forall i | 0 <= i < |sent| ::
         world(sent[i].id, sent[i].arm).inconclusive <==> stop == Inconclusive && i == |sent| - 1
  }

  /** The pool loop of `run` over the verified digest table: it goes through the selected cases and
      arms in order, each once, sends only what is sendable at that moment, and stops at the first
      obstacle or inconclusive answer. */
  method RunPool(codec: Codec, prepared: map<string, Json>, frozen: seq<string>, cases: seq<string>,
                 arms: seq<Arm>, world: (string, Arm) -> Moment)
    returns (sent: seq<Sending>, stop: Stop)
    ensures stop == Rejected <==> !Selectable(frozen, cases, arms)
    ensures stop == Rejected ==> sent == []
    ensures Slots(sent) <= Order(cases, arms)
    ensures SentSoFar(codec, prepared, world, sent, stop)
    ensures stop == Inconclusive ==> sent != []
    ensures stop == Completed ==> Slots(sent) == Order(cases, arms)
    ensures stop in OBSTACLES ==> Blocked(codec, prepared, world, Order(cases, arms), |sent|, stop)
  {
    if !Selectable(frozen, cases, arms) {
      return [], Rejected;
    }
    sent, stop := [], Completed;
    for i := 0 to |cases|
      invariant stop == Completed && Slots(sent) == Order(cases[..i], arms)
      invariant SentSoFar(codec, prepared, world, sent, Completed)
    {
      OrderStep(cases, arms, i);
      sent, stop := RunCase(codec, prepared, cases[i], arms, world, sent);
      if stop != Completed {
        return;
      }
    }
    assert cases[..|cases|] == cases;
  }

  const OBSTACLES := {Replay, Unreadable, PayloadChanged}

  predicate Selectable(frozen: seq<string>, cases: seq<string>, arms: seq<Arm>) {
    cases != [] && Counting.NoRepeats(cases) && Counting.NoRepeats(arms) && forall c | c in cases :: c in frozen
  }

  /** The inner loop: the arms of one case. */
  method RunCase(codec: Codec, prepared: map<string, Json>, id: string, arms: seq<Arm>,
                 world: (string, Arm) -> Moment, before: seq<Sending>)
    returns (sent: seq<Sending>, stop: Stop)
    requires SentSoFar(codec, prepared, world, before, Completed)
    ensures |before| <= |sent| && Slots(sent) <= Slots(before) + Row(id, arms)
    ensures SentSoFar(codec, prepared, world, sent, stop)
    ensures stop == Completed <==> Slots(sent) == Slots(before) + Row(id, arms) && stop != Inconclusive
    ensures stop == Inconclusive ==> |sent| > |before|
    ensures stop in OBSTACLES ==>
              Blocked(codec, prepared, world, Slots(before) + Row(id, arms), |sent|, stop)
    ensures stop != Rejected
  {
    sent := before;
    for j := 0 to |arms|
      invariant |sent| == |before| + j && Slots(sent) == Slots(before) + Row(id, arms)[..j]
      invariant SentSoFar(codec, prepared, world, sent, Completed)
    {
      var payload, end := Attempt(codec, prepared, id, arms[j], world(id, arms[j]));
      if payload.Some? {
        var s := Sending(id, arms[j], payload.value);
        SlotsGrow(sent, s);
        SentGrows(codec, prepared, world, sent, s, end);
        sent := sent + [s];
      }
      if end != Completed {
        return sent, end;
      }
    }
    stop := Completed;
  }

  lemma SentGrows(codec: Codec, prepared: map<string, Json>, world: (string, Arm) -> Moment,
                  sent: seq<Sending>, s: Sending, stop: Stop)
    requires SentSoFar(codec, prepared, world, sent, Completed)
    requires SentWell(codec, prepared, world, s)
    requires world(s.id, s.arm).inconclusive <==> stop == Inconclusive
    ensures SentSoFar(codec, prepared, world, sent + [s], stop)
  {
  }

  lemma SlotsGrow(sent: seq<Sending>, s: Sending)
    ensures Slots(sent + [s]) == Slots(sent) + [(s.id, s.arm)]
  {
  }

  ghost predicate SentWell(codec: Codec, prepared: map<string, Json>, world: (string, Arm) -> Moment,
                           s: Sending) {
    var m := world(s.id, s.arm);
    Sendable(codec, prepared, s.id, s.arm, m) && Some(s.payload) == codec.parse(m.file.value)
  }

  lemma {:induction false} OrderPrefix(cases: seq<string>, arms: seq<Arm>, i: nat)
    requires i <= |cases|
    ensures Order(cases[..i], arms) <= Order(cases, arms)
  {
    if i < |cases| {
      var n := |cases| - 1;
      OrderPrefix(cases[..n], arms, i);
      assert cases[..n][..i] == cases[..i];
    } else {
      assert cases[..i] == cases;
    }
  }

  lemma OrderStep(cases: seq<string>, arms: seq<Arm>, i: nat)
    requires i < |cases|
    ensures Order(cases[..i + 1], arms) == Order(cases[..i], arms) + Row(cases[i], arms)
    ensures Order(cases[..i], arms) + Row(cases[i], arms) <= Order(cases, arms)
  {
    assert cases[..i + 1][..i] == cases[..i];
    OrderPrefix(cases, arms, i + 1);
  }

  // ---------- end to end ----------

  /** The payload is what the case froze: the request itself on the baseline arm; on the candidate
      arm a document that differs from it at most at and below whitelisted pointers. */
  ghost predicate WithinScope(codec: Codec, files: Files, id: string, arm: Arm, payload: Json) {
    match LoadBundle(codec, files, PolicyTable(codec, files), id)
    case None => false
    case Some(b) =>
      && ReadDoc(codec, files, CaseFile(id, "request.json")) == Some(b.request)
      && (arm == BaselineArm ==> payload == b.request)
      && (arm == CandidateArm ==>
            && AgreeOutside(payload, b.request, Pointers(b.patches))
            && forall i | 0 <= i < |b.patches| :: b.patches[i].path in b.allowed)
  }

  /** Whatever the files have become since, a payload that passes the check against the verified
      digest table is one the verified state allows. */
  lemma VettedIsWithinScope(codec: Codec, files: Files, record: Json, id: string, arm: Arm,
                            payload: Json)
    requires codec.Faithful() && PreparedOk(codec, files, record)
    requires Vetted(codec, CaseTable(record).value, id, arm, payload)
    ensures WithinScope(codec, files, id, arm, payload)
  {
    var policy, table := PolicyTable(codec, files), CaseTable(record).value;
    assert PreparedCaseOk(codec, files, policy, id, table[id]);
    var b := LoadBundle(codec, files, policy, id).value;
    if arm == BaselineArm {
      FingerprintInjective(codec, payload, b.baseline);
    } else {
      FingerprintInjective(codec, payload, b.candidate);
      forall i | 0 <= i < |b.patches|
        ensures b.patches[i].path in b.allowed
      {
        assert EntryAccepted(codec.Fingerprint, b.baseline, b.candidate, b.patches, b.allowed, i);
      }
    }
  }

  // ---------- the whole of run ----------

  /** `{x["id"] for x in frozen["cases"]}`, in the order of the record; None where an item has no id. */
  function FrozenIds(items: seq<Json>): Option<seq<string>> {
    if items == [] then Some([])
    else
      match (TextMember(items[0], "id"), FrozenIds(items[1..]))
      case (Some(id), Some(rest)) => Some([id] + rest)
      case _ => None
  }

  /** The ids a run may select from. */
  function Selection(codec: Codec, files: Files): Option<seq<string>> {
    match ReadDoc(codec, files, FreezeFile)
    case None => None
    case Some(root) =>
      match CaseItems(root)
      case None => None
      case Some(items) => FrozenIds(items)
  }

  lemma {:induction false} FrozenIdsListed(items: seq<Json>)
    requires FrozenIds(items).Some?
    ensures |FrozenIds(items).value| == |items|
    ensures forall i | 0 <= i < |items| :: Member(items[i], "id") == Some(Text(FrozenIds(items).value[i]))
  {
    if items != [] {
      FrozenIdsListed(items[1..]);
    }
  }

  /** Without a choice a run takes every frozen case, in the order of the frozen record. */
  lemma SelectionMeans(codec: Codec, files: Files)
    requires Selection(codec, files).Some?
    ensures ReadDoc(codec, files, FreezeFile).Some? && CaseItems(ReadDoc(codec, files, FreezeFile).value).Some?
    ensures var items := CaseItems(ReadDoc(codec, files, FreezeFile).value).value;
            var ids := Selection(codec, files).value;
            |ids| == |items| && forall i | 0 <= i < |ids| :: Member(items[i], "id") == Some(Text(ids[i]))
  {
    FrozenIdsListed(CaseItems(ReadDoc(codec, files, FreezeFile).value).value);
  }

  /** Everything a run starts from: an intact and prepared directory, and a selection of its cases. */
  ghost predicate Runnable(codec: Codec, files: Files, cases: seq<string>, arms: seq<Arm>) {
    && Selection(codec, files).Some?
    && Selectable(Selection(codec, files).value, cases, arms)
    && ReadDoc(codec, files, PreparedFile).Some?
    && PreparedOk(codec, files, ReadDoc(codec, files, PreparedFile).value)
  }

  /** Against the digest table of a verified directory, a payload passes exactly if its case was prepared
      and it is the document that the prepared file held. */
  lemma VettedMeans(codec: Codec, files: Files, record: Json, id: string, arm: Arm, payload: Json)
    requires codec.Faithful() && PreparedOk(codec, files, record)
    ensures Vetted(codec, CaseTable(record).value, id, arm, payload) <==>
            && id in CaseTable(record).value
            && ReadDoc(codec, files, PreparedCase(id, ArmName(arm) + ".json")) == Some(payload)
  {
    var table := CaseTable(record).value;
    if id in table {
      var doc := PreparedDocument(codec, files, PolicyTable(codec, files), id, table[id], arm);
      if Vetted(codec, table, id, arm, payload) {
        FingerprintInjective(codec, payload, doc);
      }
    }
  }

  /** The prepared file of an arm holds a document with the recorded digest. */
  lemma PreparedDocument(codec: Codec, files: Files, policy: Json, id: string, values: Json, arm: Arm)
    returns (doc: Json)
    requires PreparedCaseOk(codec, files, policy, id, values)
    ensures ReadDoc(codec, files, PreparedCase(id, ArmName(arm) + ".json")) == Some(doc)
    ensures TextMember(values, ArmName(arm)) == Some(codec.Fingerprint(doc))
  {
    var b := LoadBundle(codec, files, policy, id).value;
    doc := if arm == BaselineArm then b.baseline else b.candidate;
    assert ArmName(arm) + ".json" == if arm == BaselineArm then "baseline.json" else "candidate.json";
  }

  /** The case was prepared, and the file of the case and arm still holds the verified document. */
  ghost predicate Unchanged(codec: Codec, files: Files, id: string, arm: Arm, m: Moment)
    requires ReadDoc(codec, files, PreparedFile).Some?
    requires CaseTable(ReadDoc(codec, files, PreparedFile).value).Some?
  {
    && id in CaseTable(ReadDoc(codec, files, PreparedFile).value).value
    && m.file.Some? && codec.parse(m.file.value).Some?
    && ReadDoc(codec, files, PreparedCase(id, ArmName(arm) + ".json")) == codec.parse(m.file.value)
  }

  /** `run`: verify, select, go through the pool.  Whatever the prepared files and markers turn out to
      be when the pool comes to them, what is sent was unstarted, is what the file held at that moment,
      and is within the scope of the verified state; and the pool goes on exactly as long as the next
      slot is unstarted and unchanged and no answer was inconclusive. */
  method Run(codec: Codec, files: Files, chosen: seq<string>, arms: seq<Arm>, world: (string, Arm) -> Moment)
    returns (sent: seq<Sending>, stop: Stop)
    requires codec.Faithful()
    ensures var cases := if chosen == [] then Selection(codec, files).GetOr([]) else chosen;
            && (stop == Rejected <==> !Runnable(codec, files, cases, arms))
            && Slots(sent) <= Order(cases, arms)
            && (stop == Completed ==> Slots(sent) == Order(cases, arms))
            && (stop !in {Rejected, Completed, Inconclusive} ==> |sent| < |Order(cases, arms)|)
            && (stop !in {Rejected, Inconclusive} && |sent| < |Order(cases, arms)| ==>
                  var (id, arm) := Order(cases, arms)[|sent|];
                  var m := world(id, arm);
                  && (stop == Replay <==> m.started)
                  && (stop == Unreadable <==> !m.started && (m.file.None? || codec.parse(m.file.value).None?))
                  && (stop == PayloadChanged ==> !Unchanged(codec, files, id, arm, m)))
    ensures stop == Rejected ==> sent == []
    ensures stop != Rejected ==>
              var frozen := Selection(codec, files).GetOr([]);
              && (chosen == [] ==> frozen != [] && Counting.NoRepeats(frozen))
              && Counting.NoRepeats(chosen) && Counting.NoRepeats(arms)
              && forall c | c in chosen :: c in frozen
    ensures forall i | 0 <= i < |sent| :: WithinScope(codec, files, sent[i].id, sent[i].arm, sent[i].payload)
    ensures forall i | 0 <= i < |sent| ::
              var m := world(sent[i].id, sent[i].arm);
              && !m.started && m.file.Some? && codec.parse(m.file.value) == Some(sent[i].payload)
              && ReadDoc(codec, files, PreparedCase(sent[i].id, ArmName(sent[i].arm) + ".json")) ==
                 Some(sent[i].payload)
    ensures stop == Inconclusive ==> sent != []
    ensures forall i | 0 <= i < |sent| ::
              world(sent[i].id, sent[i].arm).inconclusive <==> stop == Inconclusive && i == |sent| - 1
    ensures var cases := if chosen == [] then Selection(codec, files).GetOr([]) else chosen;
            Runnable(codec, files, cases, arms)
            && (forall slot | slot in Order(cases, arms) ::
                  var m := world(slot.0, slot.1);
                  !m.started && !m.inconclusive && Unchanged(codec, files, slot.0, slot.1, m)) ==>
              stop == Completed && Slots(sent) == Order(cases, arms)
  {
    var frozen := Verify(codec, files);
    var ids := Selection(codec, files);
    var cases := if chosen == [] then ids.GetOr([]) else chosen;
    if frozen.None? || ids.None? || !Selectable(ids.value, cases, arms) {
      return [], Rejected;
    }
    var prepared := VerifyPrepared(codec, files);
    if prepared.None? {
      return [], Rejected;
    }
    sent, stop := RunPool(codec, prepared.value, ids.value, cases, arms, world);
    SentMeans(codec, files, world, sent, stop);
    if stop in OBSTACLES {
      BlockedMeans(codec, files, world, Order(cases, arms), |sent|, stop);
    }
    if stop == Inconclusive {
      assert Slots(sent)[|sent| - 1] in Order(cases, arms);
    }
  }

  lemma SentMeans(codec: Codec, files: Files, world: (string, Arm) -> Moment, sent: seq<Sending>, stop: Stop)
    requires codec.Faithful() && ReadDoc(codec, files, PreparedFile).Some?
    requires PreparedOk(codec, files, ReadDoc(codec, files, PreparedFile).value)
    requires SentSoFar(codec, CaseTable(ReadDoc(codec, files, PreparedFile).value).value, world, sent, stop)
    ensures forall i | 0 <= i < |sent| :: WithinScope(codec, files, sent[i].id, sent[i].arm, sent[i].payload)
    ensures forall i | 0 <= i < |sent| ::
              var m := world(sent[i].id, sent[i].arm);
              && !m.started && m.file.Some? && codec.parse(m.file.value) == Some(sent[i].payload)
              && ReadDoc(codec, files, PreparedCase(sent[i].id, ArmName(sent[i].arm) + ".json")) ==
                 Some(sent[i].payload)
  {
    var record := ReadDoc(codec, files, PreparedFile).value;
    forall i | 0 <= i < |sent|
      ensures WithinScope(codec, files, sent[i].id, sent[i].arm, sent[i].payload)
      ensures var m := world(sent[i].id, sent[i].arm);
              && !m.started && m.file.Some? && codec.parse(m.file.value) == Some(sent[i].payload)
              && ReadDoc(codec, files, PreparedCase(sent[i].id, ArmName(sent[i].arm) + ".json")) ==
                 Some(sent[i].payload)
    {
      assert SentWell(codec, CaseTable(record).value, world, sent[i]);
      VettedIsWithinScope(codec, files, record, sent[i].id, sent[i].arm, sent[i].payload);
      VettedMeans(codec, files, record, sent[i].id, sent[i].arm, sent[i].payload);
    }
  }

  lemma BlockedMeans(codec: Codec, files: Files, world: (string, Arm) -> Moment,
                     order: seq<(string, Arm)>, n: nat, stop: Stop)
    requires codec.Faithful() && ReadDoc(codec, files, PreparedFile).Some?
    requires PreparedOk(codec, files, ReadDoc(codec, files, PreparedFile).value)
    requires Blocked(codec, CaseTable(ReadDoc(codec, files, PreparedFile).value).value, world, order, n, stop)
    ensures var (id, arm) := order[n];
            var m := world(id, arm);
            && (stop == Replay <==> m.started)
            && (stop == Unreadable <==> !m.started && (m.file.None? || codec.parse(m.file.value).None?))
            && (stop == PayloadChanged ==> !Unchanged(codec, files, id, arm, m))
  {
    var (id, arm) := order[n];
    if Payload(codec, world(id, arm)).Some? {
      VettedMeans(codec, files, ReadDoc(codec, files, PreparedFile).value, id, arm,
                  Payload(codec, world(id, arm)).value);
    }
  }

  // ---------- result directories ----------

  /** The result directory of a case and arm. */
  function TargetOf(id: string, arm: Arm): string {
    id + "/" + ArmName(arm)
  }

  /** Different cases or arms have different result directories. */
  lemma TargetsDiffer(id: string, arm: Arm, id': string, arm': Arm)
    requires TargetOf(id, arm) == TargetOf(id', arm')
    ensures id == id' && arm == arm'
  {
    var t := TargetOf(id, arm);
    assert ArmName(BaselineArm)[|ArmName(BaselineArm)| - 2] != ArmName(CandidateArm)[|ArmName(CandidateArm)| - 2];
    assert t[|t| - 2] == ArmName(arm)[|ArmName(arm)| - 2] == ArmName(arm')[|ArmName(arm')| - 2];
    assert id == t[..|t| - |ArmName(arm)| - 1] && id' == t[..|t| - |ArmName(arm')| - 1];
  }
}
