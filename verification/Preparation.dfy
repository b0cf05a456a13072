/** Preparing candidates: the edits of every frozen case, written once and recorded by digest, and
    that what preparation leaves behind is what verification accepts. */
module Preparation {
  import opened Wrappers
  import opened JsonTree
  import opened Store
  import opened Patches
  import opened Freeze
  import opened Prepared
  import opened Provenance

  // ---------- records as documents ----------

  function PatchJson(p: Patch): Json {
    Obj(map["path" := Text(p.path), "before_sha256" := Text(p.before),
            "after_sha256" := Text(p.after), "producer" := Text(p.producer)])
  }

  function PatchesJson(patches: seq<Patch>): seq<Json> {
    if patches == [] then [] else [PatchJson(patches[0])] + PatchesJson(patches[1..])
  }

  lemma PatchReadBack(p: Patch)
    ensures PatchOf(PatchJson(p)) == Some(p)
  {
    assert |"path"| != |"before_sha256"| && |"path"| != |"after_sha256"| && |"path"| != |"producer"|;
    assert |"before_sha256"| != |"after_sha256"| && |"before_sha256"| != |"producer"|;
    assert |"after_sha256"| != |"producer"|;
  }

  /** The recorded patches are read back as they were written. */
  lemma {:induction false} PatchesReadBack(patches: seq<Patch>)
    ensures PatchItems(PatchesJson(patches)) == Some(patches)
  {
    if patches != [] {
      PatchReadBack(patches[0]);
      PatchesReadBack(patches[1..]);
      var items := PatchesJson(patches);
      assert items[0] == PatchJson(patches[0]) && items[1..] == PatchesJson(patches[1..]);
      assert patches == [patches[0]] + patches[1..];
    }
  }

  /** The row of a case in the digest table. */
  function RowOf(codec: Codec, baseline: Json, candidate: Json, patches: seq<Patch>): Json {
    Obj(map["baseline" := Text(codec.Fingerprint(baseline)),
            "candidate" := Text(codec.Fingerprint(candidate)),
            "patches" := Text(codec.Fingerprint(Arr(PatchesJson(patches))))])
  }

  // ---------- what later writes cannot undo ----------

  lemma ReadKept(codec: Codec, before: Files, after: Files, path: FilePath)
    requires Grows(before, after) && ReadDoc(codec, before, path).Some?
    ensures ReadDoc(codec, after, path) == ReadDoc(codec, before, path)
  {
  }

  lemma BundleKept(codec: Codec, before: Files, after: Files, policy: Json, id: string)
    requires Grows(before, after) && LoadBundle(codec, before, policy, id).Some?
    ensures LoadBundle(codec, after, policy, id) == LoadBundle(codec, before, policy, id)
  {
    ReadKept(codec, before, after, CaseFile(id, "request.json"));
    ReadKept(codec, before, after, CaseFile(id, "manifest.json"));
    ReadKept(codec, before, after, PreparedCase(id, "baseline.json"));
    ReadKept(codec, before, after, PreparedCase(id, "candidate.json"));
    ReadKept(codec, before, after, PreparedCase(id, "patches.json"));
  }

  lemma PreparedCaseKept(codec: Codec, before: Files, after: Files, policy: Json, id: string, values: Json)
    requires Grows(before, after) && PreparedCaseOk(codec, before, policy, id, values)
    ensures PreparedCaseOk(codec, after, policy, id, values)
  {
    BundleKept(codec, before, after, policy, id);
  }

  lemma CaseIntactKept(codec: Codec, before: Files, after: Files, item: Json)
    requires Grows(before, after) && CaseIntact(codec, before, item)
    ensures CaseIntact(codec, after, item)
  {
    var id := TextMember(item, "id").value;
    ReadKept(codec, before, after, CaseFile(id, "manifest.json"));
  }

  lemma IntactKept(codec: Codec, before: Files, after: Files)
    requires Grows(before, after) && Intact(codec, before)
    ensures Intact(codec, after)
  {
    ReadKept(codec, before, after, FreezeFile);
    var items := CaseItems(ReadDoc(codec, before, FreezeFile).value).value;
    forall item | item in items
      ensures CaseIntact(codec, after, item)
    {
      CaseIntactKept(codec, before, after, item);
    }
  }

  // ---------- one case ----------

  /** The edits of a case, applied through `replace` to a fresh copy of the baseline. */
  method ApplyEdits(codec: Codec, baseline: Json, allowed: seq<string>, edits: seq<Edit>)
    returns (d: Option<Draft>)
    ensures d == DraftOf(codec, baseline, allowed, edits)
  {
    var bench := new Workbench(baseline, allowed);
    for i := 0 to |edits|
      invariant bench.baseline == baseline && bench.allowed == allowed
      invariant DraftOf(codec, baseline, allowed, edits[..i]) == Some(bench.State())
    {
      var ok := bench.Replace(codec.Fingerprint, edits[i].pointer, edits[i].value, edits[i].producer);
      DraftStep(codec, baseline, allowed, edits, i);
      if !ok {
        NoDraftLater(codec, baseline, allowed, edits, i + 1);
        return None;
      }
    }
    assert edits[..|edits|] == edits;
    return Some(bench.State());
  }

  function DraftOf(codec: Codec, baseline: Json, allowed: seq<string>, edits: seq<Edit>): Option<Draft> {
    match Patches.Replay(codec.Fingerprint, baseline, allowed, edits)
    case None => None
    case Some(t) => Some(t.draft)
  }

  lemma DraftStep(codec: Codec, baseline: Json, allowed: seq<string>, edits: seq<Edit>, i: nat)
    requires i < |edits|
    ensures DraftOf(codec, baseline, allowed, edits[..i + 1]) ==
            match DraftOf(codec, baseline, allowed, edits[..i])
            case None => None
            case Some(d) => ReplaceStep(codec.Fingerprint, baseline, allowed, d, edits[i])
  {
    assert edits[..i + 1][..i] == edits[..i];
  }

  lemma {:induction false} NoDraftLater(codec: Codec, baseline: Json, allowed: seq<string>,
                                        edits: seq<Edit>, i: nat)
    requires i <= |edits| && DraftOf(codec, baseline, allowed, edits[..i]).None?
    ensures DraftOf(codec, baseline, allowed, edits).None?
    decreases |edits| - i
  {
    if i == |edits| {
      assert edits[..i] == edits;
    } else {
      DraftStep(codec, baseline, allowed, edits, i);
      NoDraftLater(codec, baseline, allowed, edits, i + 1);
    }
  }

  /** `build_candidate` succeeds exactly if every edit goes through and the result validates. */
  method BuildCandidate(codec: Codec, baseline: Json, allowed: seq<string>, edits: seq<Edit>)
    returns (r: Option<Draft>)
    ensures var d := DraftOf(codec, baseline, allowed, edits);
            r == if d.Some? && Declared(codec.Fingerprint, baseline, d.value.candidate, d.value.patches, allowed)
                 then d else None
  {
    var d := ApplyEdits(codec, baseline, allowed, edits);
    if d.None? {
      return None;
    }
    var verdict := ValidatePatches(codec.Fingerprint, baseline, d.value.candidate, d.value.patches, allowed);
    if verdict.Fail? {
      return None;
    }
    return d;
  }

  /** The three files of a prepared case. */
  ghost predicate Written(codec: Codec, files: Files, id: string, baseline: Json, d: Draft) {
    && PreparedCase(id, "baseline.json") in files
    && files[PreparedCase(id, "baseline.json")] == codec.canonical(baseline)
    && PreparedCase(id, "candidate.json") in files
    && files[PreparedCase(id, "candidate.json")] == codec.canonical(d.candidate)
    && PreparedCase(id, "patches.json") in files
    && files[PreparedCase(id, "patches.json")] == codec.canonical(Arr(PatchesJson(d.patches)))
  }

  /** The files of a prepared case. */
  function WritePlan(codec: Codec, id: string, baseline: Json, d: Draft): Plan {
    {(PreparedCase(id, "baseline.json"), codec.canonical(baseline))}
    + {(PreparedCase(id, "candidate.json"), codec.canonical(d.candidate))}
    + {(PreparedCase(id, "patches.json"), codec.canonical(Arr(PatchesJson(d.patches))))}
  }

  method WriteCase(codec: Codec, directory: Directory, id: string, baseline: Json, d: Draft)
    returns (ok: bool)
    modifies directory
    ensures ok <==> Fits(old(directory.files), WritePlan(codec, id, baseline, d))
    ensures ok ==> Done(old(directory.files), directory.files, WritePlan(codec, id, baseline, d))
    ensures ok ==> Written(codec, directory.files, id, baseline, d)
    ensures Within(old(directory.files), directory.files, WritePlan(codec, id, baseline, d))
  {
    ghost var before, plan := directory.files, WritePlan(codec, id, baseline, d);
    ghost var one: Plan := {(PreparedCase(id, "baseline.json"), codec.canonical(baseline))};
    ghost var two: Plan := {(PreparedCase(id, "candidate.json"), codec.canonical(d.candidate))};
    ghost var three: Plan := {(PreparedCase(id, "patches.json"), codec.canonical(Arr(PatchesJson(d.patches))))};
    ok := directory.Save(PreparedCase(id, "baseline.json"), codec.canonical(baseline));
    PlanStep(before, before, directory.files, {}, one, plan);
    if !ok {
      return;
    }
    ghost var first := directory.files;
    ok := directory.Save(PreparedCase(id, "candidate.json"), codec.canonical(d.candidate));
    PlanStep(before, first, directory.files, one, two, plan);
    if !ok {
      return;
    }
    ghost var second := directory.files;
    ok := directory.Save(PreparedCase(id, "patches.json"), codec.canonical(Arr(PatchesJson(d.patches))));
    PlanStep(before, second, directory.files, one + two, three, plan);
  }

  lemma RowMembers(codec: Codec, baseline: Json, d: Draft)
    ensures var row := RowOf(codec, baseline, d.candidate, d.patches);
            && TextMember(row, "baseline") == Some(codec.Fingerprint(baseline))
            && TextMember(row, "candidate") == Some(codec.Fingerprint(d.candidate))
            && TextMember(row, "patches") == Some(codec.Fingerprint(Arr(PatchesJson(d.patches))))
  {
    assert |"baseline"| != |"candidate"| && |"baseline"| != |"patches"| && |"candidate"| != |"patches"|;
  }

  lemma WrittenIsOk(codec: Codec, files: Files, policy: Json, id: string, baseline: Json, d: Draft,
                    allowed: seq<string>)
    requires codec.Faithful() && Written(codec, files, id, baseline, d)
    requires ReadDoc(codec, files, CaseFile(id, "request.json")) == Some(baseline)
    requires Whitelist(codec, files, policy, id) == Some(allowed)
    requires Declared(codec.Fingerprint, baseline, d.candidate, d.patches, allowed)
    ensures PreparedCaseOk(codec, files, policy, id, RowOf(codec, baseline, d.candidate, d.patches))
  {
    var patches := Arr(PatchesJson(d.patches));
    assert codec.parse(codec.canonical(baseline)) == Some(baseline);
    assert codec.parse(codec.canonical(d.candidate)) == Some(d.candidate);
    assert codec.parse(codec.canonical(patches)) == Some(patches);
    PatchesReadBack(d.patches);
    RowMembers(codec, baseline, d);
    assert LoadBundle(codec, files, policy, id) ==
           Some(Bundle(baseline, baseline, d.candidate, d.patches, allowed));
  }

  // ---------- what the edits of a case come to ----------

  /** The request of the case, its whitelist, and the draft its edits leave, where there are such. */
  function DraftFor(codec: Codec, files: Files, policy: Json, id: string, edits: seq<Edit>)
    : Option<(Json, seq<string>, Draft)>
  {
    match (ReadDoc(codec, files, CaseFile(id, "request.json")), Whitelist(codec, files, policy, id))
    case (Some(baseline), Some(allowed)) =>
      (match DraftOf(codec, baseline, allowed, edits)
       case Some(d) => Some((baseline, allowed, d))
       case None => None)
    case _ => None
  }

  /** `build_candidate` goes through. */
  ghost predicate Editable(codec: Codec, files: Files, policy: Json, id: string, edits: seq<Edit>) {
    match DraftFor(codec, files, policy, id, edits)
    case None => false
    case Some((baseline, allowed, d)) => Declared(codec.Fingerprint, baseline, d.candidate, d.patches, allowed)
  }

  /** The files that preparing the case writes. */
  function CandidatePlan(codec: Codec, files: Files, policy: Json, id: string, edits: seq<Edit>): Plan {
    match DraftFor(codec, files, policy, id, edits)
    case None => {}
    case Some((baseline, allowed, d)) => WritePlan(codec, id, baseline, d)
  }

  lemma UnnestedDraft(codec: Codec, baseline: Json, allowed: seq<string>, edits: seq<Edit>)
    requires Unnested(edits)
    ensures var d := DraftOf(codec, baseline, allowed, edits);
            && (d.Some? <==> forall e | e in edits :: e.pointer in allowed && At(baseline, Segments(e.pointer)).Some?)
            && (d.Some? ==> Declared(codec.Fingerprint, baseline, d.value.candidate, d.value.patches, allowed))
  {
    UnnestedEditsValidate(codec.Fingerprint, baseline, allowed, edits);
  }

  /** The edits of a case do not touch each other, and go through exactly if its whitelist names them and
      its request has a value at each. */
  lemma UnnestedIsEditable(codec: Codec, files: Files, policy: Json, id: string, edits: seq<Edit>)
    requires Unnested(edits)
    ensures Editable(codec, files, policy, id, edits) <==>
            && ReadDoc(codec, files, CaseFile(id, "request.json")).Some?
            && Whitelist(codec, files, policy, id).Some?
            && forall e | e in edits ::
                 && e.pointer in Whitelist(codec, files, policy, id).value
                 && At(ReadDoc(codec, files, CaseFile(id, "request.json")).value, Segments(e.pointer)).Some?
  {
    var request, allowed := ReadDoc(codec, files, CaseFile(id, "request.json")), Whitelist(codec, files, policy, id);
    if request.Some? && allowed.Some? {
      UnnestedDraft(codec, request.value, allowed.value, edits);
    }
  }

  /** What is prepared on disk for the case is the request and what its edits make of it: the prepared
      baseline is the request, the candidate and the patches are those the edits leave; and if no edit
      touches another, the candidate has every edited value in its place and is the request elsewhere,
      and there is one patch per edit that changes something. */
  ghost predicate CarriesEdits(codec: Codec, files: Files, policy: Json, id: string, edits: seq<Edit>) {
    var request := ReadDoc(codec, files, CaseFile(id, "request.json"));
    var candidate := ReadDoc(codec, files, PreparedCase(id, "candidate.json"));
    var patches := PatchList(ReadDoc(codec, files, PreparedCase(id, "patches.json")));
    && request.Some? && candidate.Some? && patches.Some?
    && ReadDoc(codec, files, PreparedCase(id, "baseline.json")) == request
    && (exists allowed ::
          && Whitelist(codec, files, policy, id) == Some(allowed)
          && DraftOf(codec, request.value, allowed, edits) == Some(Draft(candidate.value, patches.value)))
    && (Unnested(edits) ==>
          && (forall e | e in edits :: At(candidate.value, Segments(e.pointer)) == Some(e.value))
          && (forall q: Path | Untouched(q, edits) :: At(candidate.value, q) == At(request.value, q))
          && patches.value == PatchesOf(codec.Fingerprint, request.value, edits))
  }

  lemma WrittenCarries(codec: Codec, files: Files, policy: Json, id: string, edits: seq<Edit>, baseline: Json,
                       allowed: seq<string>, d: Draft)
    requires codec.Faithful() && Written(codec, files, id, baseline, d)
    requires DraftFor(codec, files, policy, id, edits) == Some((baseline, allowed, d))
    ensures CarriesEdits(codec, files, policy, id, edits)
  {
    var patches := Arr(PatchesJson(d.patches));
    assert codec.parse(codec.canonical(baseline)) == Some(baseline);
    assert codec.parse(codec.canonical(d.candidate)) == Some(d.candidate);
    assert codec.parse(codec.canonical(patches)) == Some(patches);
    PatchesReadBack(d.patches);
    assert d == Draft(d.candidate, d.patches);
    if Unnested(edits) {
      UnnestedReplay(codec.Fingerprint, baseline, allowed, edits);
      UnnestedPatches(codec.Fingerprint, baseline, allowed, edits);
    }
  }

  lemma CarriesKept(codec: Codec, before: Files, after: Files, policy: Json, id: string, edits: seq<Edit>)
    requires Grows(before, after) && CarriesEdits(codec, before, policy, id, edits)
    ensures CarriesEdits(codec, after, policy, id, edits)
  {
    ReadKept(codec, before, after, CaseFile(id, "request.json"));
    ReadKept(codec, before, after, CaseFile(id, "manifest.json"));
    ReadKept(codec, before, after, PreparedCase(id, "baseline.json"));
    ReadKept(codec, before, after, PreparedCase(id, "candidate.json"));
    ReadKept(codec, before, after, PreparedCase(id, "patches.json"));
  }

  /** What a case comes to depends on its frozen files only. */
  lemma DraftKept(codec: Codec, before: Files, after: Files, policy: Json, id: string, edits: seq<Edit>)
    requires Grows(before, after)
    requires forall p: FilePath | p.CaseFile? && p in after :: p in before
    ensures DraftFor(codec, after, policy, id, edits) == DraftFor(codec, before, policy, id, edits)
    ensures Editable(codec, after, policy, id, edits) == Editable(codec, before, policy, id, edits)
    ensures CandidatePlan(codec, after, policy, id, edits) == CandidatePlan(codec, before, policy, id, edits)
  {
  }

  /** One turn of the loop of `prepare`: it succeeds exactly if the edits go through and no file is in the
      way; then the case is prepared as its edits say, and verification accepts it with the row. */
  method PrepareCase(codec: Codec, directory: Directory, policy: Json, id: string, edits: seq<Edit>)
    returns (row: Option<Json>)
    requires codec.Faithful()
    modifies directory
    ensures Grows(old(directory.files), directory.files)
    ensures row.Some? <==>
            && Editable(codec, old(directory.files), policy, id, edits)
            && Fits(old(directory.files), CandidatePlan(codec, old(directory.files), policy, id, edits))
    ensures row.Some? ==>
              Done(old(directory.files), directory.files, CandidatePlan(codec, old(directory.files), policy, id, edits))
    ensures row.Some? ==> CarriesEdits(codec, directory.files, policy, id, edits)
    ensures row.Some? ==> PreparedCaseOk(codec, directory.files, policy, id, row.value)
    ensures Within(old(directory.files), directory.files,
                   CandidatePlan(codec, old(directory.files), policy, id, edits))
  {
    ghost var before := directory.files;
    var baseline := ReadDoc(codec, directory.files, CaseFile(id, "request.json"));
    var allowed := Whitelist(codec, directory.files, policy, id);
    if baseline.None? || allowed.None? {
      return None;
    }
    var built := BuildCandidate(codec, baseline.value, allowed.value, edits);
    if built.None? {
      return None;
    }
    var d := built.value;
    var ok := WriteCase(codec, directory, id, baseline.value, d);
    if !ok {
      return None;
    }
    CaseWritten(codec, before, directory.files, policy, id, edits, baseline.value, allowed.value, d);
    return Some(RowOf(codec, baseline.value, d.candidate, d.patches));
  }

  lemma CaseWritten(codec: Codec, before: Files, after: Files, policy: Json, id: string, edits: seq<Edit>,
                    baseline: Json, allowed: seq<string>, d: Draft)
    requires codec.Faithful() && Grows(before, after) && Written(codec, after, id, baseline, d)
    requires DraftFor(codec, before, policy, id, edits) == Some((baseline, allowed, d))
    requires Editable(codec, before, policy, id, edits)
    ensures CarriesEdits(codec, after, policy, id, edits)
    ensures PreparedCaseOk(codec, after, policy, id, RowOf(codec, baseline, d.candidate, d.patches))
  {
    ReadKept(codec, before, after, CaseFile(id, "request.json"));
    ReadKept(codec, before, after, CaseFile(id, "manifest.json"));
    WrittenIsOk(codec, after, policy, id, baseline, d, allowed);
    WrittenCarries(codec, after, policy, id, edits, baseline, allowed, d);
  }

  // ---------- prepare ----------

  function DigestTable(codec: Codec, files: Files, names: set<string>): map<string, Json>
    requires forall name | name in names :: SourceFile(name) in files
  {
    map name | name in names :: Text(codec.digest(files[SourceFile(name)]))
  }

  function RecordOf(rows: map<string, Json>, freeze: string, provenance: string, policy: string,
                    producers: map<string, Json>, experiments: map<string, Json>): Json {
    Obj(map["cases" := Obj(rows), "freeze_sha256" := Text(freeze), "provenance_sha256" := Text(provenance),
            "policy_sha256" := Text(policy), "producer_files" := Obj(producers),
            "experiment_files" := Obj(experiments)])
  }

  lemma RecordMembers(rows: map<string, Json>, freeze: string, provenance: string, policy: string,
                      producers: map<string, Json>, experiments: map<string, Json>)
    ensures var r := RecordOf(rows, freeze, provenance, policy, producers, experiments);
            && CaseTable(r) == Some(rows) && Merged(r) == Some(producers + experiments)
            && TextMember(r, "freeze_sha256") == Some(freeze)
            && TextMember(r, "provenance_sha256") == Some(provenance)
            && TextMember(r, "policy_sha256") == Some(policy)
  {
    var keys := ["cases", "freeze_sha256", "provenance_sha256", "policy_sha256", "producer_files",
                 "experiment_files"];
    assert |keys[0]| == 5 && |keys[1]| == 13 && |keys[2]| == 17 && |keys[3]| == 13 && |keys[4]| == 14
           && |keys[5]| == 16;
    assert keys[1][0] != keys[3][0];
  }

  /** All recorded rows belong to prepared cases. */
  ghost predicate RowsOk(codec: Codec, files: Files, policy: Json, rows: map<string, Json>) {
    forall id | id in rows :: PreparedCaseOk(codec, files, policy, id, rows[id])
  }

  lemma RowsKept(codec: Codec, before: Files, after: Files, policy: Json, rows: map<string, Json>)
    requires Grows(before, after) && RowsOk(codec, before, policy, rows)
    ensures RowsOk(codec, after, policy, rows)
  {
    forall id | id in rows
      ensures PreparedCaseOk(codec, after, policy, id, rows[id])
    {
      PreparedCaseKept(codec, before, after, policy, id, rows[id]);
    }
  }

  lemma RowAdded(codec: Codec, files: Files, policy: Json, rows: map<string, Json>, id: string, row: Json)
    requires RowsOk(codec, files, policy, rows) && PreparedCaseOk(codec, files, policy, id, row)
    ensures RowsOk(codec, files, policy, rows[id := row])
  {
  }

  /** Every item of the frozen list has a row. */
  ghost predicate RowsFor(items: seq<Json>, rows: map<string, Json>) {
    forall item | item in items :: TextMember(item, "id").Some? && TextMember(item, "id").value in rows
  }

  lemma RowsForOneMore(items: seq<Json>, i: nat, rows: map<string, Json>, id: string, row: Json)
    requires i < |items| && RowsFor(items[..i], rows) && TextMember(items[i], "id") == Some(id)
    ensures RowsFor(items[..i + 1], rows[id := row])
  {
    forall item | item in items[..i + 1]
      ensures TextMember(item, "id").Some? && TextMember(item, "id").value in rows[id := row]
    {
      assert item in items[..i] || item == items[i];
    }
  }

  /** The item names a case whose edits go through. */
  ghost predicate ItemEditable(codec: Codec, files: Files, policy: Json, item: Json, edits: string -> seq<Edit>) {
    match TextMember(item, "id")
    case None => false
    case Some(id) => Editable(codec, files, policy, id, edits(id))
  }

  ghost predicate AllEditable(codec: Codec, files: Files, policy: Json, items: seq<Json>, edits: string -> seq<Edit>) {
    forall item | item in items :: ItemEditable(codec, files, policy, item, edits)
  }

  /** The item's case is prepared as its edits say. */
  ghost predicate ItemCarries(codec: Codec, files: Files, policy: Json, item: Json, edits: string -> seq<Edit>) {
    match TextMember(item, "id")
    case None => false
    case Some(id) => CarriesEdits(codec, files, policy, id, edits(id))
  }

  ghost predicate AllCarry(codec: Codec, files: Files, policy: Json, items: seq<Json>, edits: string -> seq<Edit>) {
    forall item | item in items :: ItemCarries(codec, files, policy, item, edits)
  }

  function ItemPlan(codec: Codec, files: Files, policy: Json, item: Json, edits: string -> seq<Edit>): Plan {
    match TextMember(item, "id")
    case None => {}
    case Some(id) => CandidatePlan(codec, files, policy, id, edits(id))
  }

  lemma ItemPlanned(codec: Codec, files: Files, policy: Json, item: Json, edits: string -> seq<Edit>)
    ensures forall w | w in ItemPlan(codec, files, policy, item, edits) :: w.0.PreparedCase?
  {
  }

  /** What an item comes to depends on its frozen files only. */
  lemma ItemKept(codec: Codec, before: Files, after: Files, policy: Json, item: Json, edits: string -> seq<Edit>)
    requires Grows(before, after)
    requires forall p: FilePath | p.CaseFile? && p in after :: p in before
    ensures ItemEditable(codec, after, policy, item, edits) == ItemEditable(codec, before, policy, item, edits)
    ensures ItemPlan(codec, after, policy, item, edits) == ItemPlan(codec, before, policy, item, edits)
  {
    if TextMember(item, "id").Some? {
      var id := TextMember(item, "id").value;
      DraftKept(codec, before, after, policy, id, edits(id));
    }
  }

  function PreparePlan(codec: Codec, files: Files, policy: Json, items: seq<Json>, edits: string -> seq<Edit>): Plan {
    if items == [] then {}
    else
      PreparePlan(codec, files, policy, items[..|items| - 1], edits)
      + ItemPlan(codec, files, policy, items[|items| - 1], edits)
  }

  /** What is planned for the first items is planned for all. */
  lemma {:induction false} PlanGrows(codec: Codec, files: Files, policy: Json, items: seq<Json>,
                                     edits: string -> seq<Edit>, i: nat)
    requires i <= |items|
    ensures PreparePlan(codec, files, policy, items[..i], edits) <= PreparePlan(codec, files, policy, items, edits)
  {
    if i < |items| {
      var front := items[..|items| - 1];
      PlanGrows(codec, files, policy, front, edits, i);
      assert front[..i] == items[..i];
    } else {
      assert items[..i] == items;
    }
  }

  lemma {:induction false} PlannedFiles(codec: Codec, files: Files, policy: Json, items: seq<Json>,
                                        edits: string -> seq<Edit>)
    ensures forall w | w in PreparePlan(codec, files, policy, items, edits) :: w.0.PreparedCase?
  {
    if items != [] {
      PlannedFiles(codec, files, policy, items[..|items| - 1], edits);
      ItemPlanned(codec, files, policy, items[|items| - 1], edits);
    }
  }

  /** Preparing the first items leaves what the next one comes to as it was. */
  lemma NextItemKept(codec: Codec, before: Files, middle: Files, policy: Json, items: seq<Json>,
                     edits: string -> seq<Edit>, i: nat)
    requires i < |items| && Done(before, middle, PreparePlan(codec, before, policy, items[..i], edits))
    ensures ItemEditable(codec, middle, policy, items[i], edits) == ItemEditable(codec, before, policy, items[i], edits)
    ensures ItemPlan(codec, middle, policy, items[i], edits) == ItemPlan(codec, before, policy, items[i], edits)
  {
    PlannedFiles(codec, before, policy, items[..i], edits);
    ItemKept(codec, before, middle, policy, items[i], edits);
  }

  /** One turn of the loop over the frozen cases. */
  lemma OneMoreItem(codec: Codec, before: Files, middle: Files, after: Files, policy: Json, items: seq<Json>,
                    edits: string -> seq<Edit>, i: nat)
    requires i < |items|
    requires Done(before, middle, PreparePlan(codec, before, policy, items[..i], edits))
    requires Within(middle, after, ItemPlan(codec, before, policy, items[i], edits))
    ensures Within(before, after, PreparePlan(codec, before, policy, items, edits))
    ensures Done(middle, after, ItemPlan(codec, before, policy, items[i], edits)) ==>
              Done(before, after, PreparePlan(codec, before, policy, items[..i + 1], edits))
    ensures Fits(before, PreparePlan(codec, before, policy, items, edits)) ==>
              Fits(middle, ItemPlan(codec, before, policy, items[i], edits))
  {
    var first := PreparePlan(codec, before, policy, items[..i], edits);
    var one := ItemPlan(codec, before, policy, items[i], edits);
    PlanGrows(codec, before, policy, items, edits, i + 1);
    assert items[..i + 1][..i] == items[..i];
    PlanStep(before, middle, after, first, one, PreparePlan(codec, before, policy, items, edits));
  }

  lemma EditableMore(codec: Codec, files: Files, policy: Json, items: seq<Json>, edits: string -> seq<Edit>, i: nat)
    requires i < |items| && AllEditable(codec, files, policy, items[..i], edits)
    ensures ItemEditable(codec, files, policy, items[i], edits) ==>
              AllEditable(codec, files, policy, items[..i + 1], edits)
    ensures AllEditable(codec, files, policy, items, edits) ==> ItemEditable(codec, files, policy, items[i], edits)
  {
    assert items[i] in items && forall item | item in items[..i + 1] :: item in items[..i] || item == items[i];
  }

  lemma CarryMore(codec: Codec, before: Files, after: Files, policy: Json, items: seq<Json>,
                  edits: string -> seq<Edit>, i: nat)
    requires i < |items| && Grows(before, after) && AllCarry(codec, before, policy, items[..i], edits)
    requires ItemCarries(codec, after, policy, items[i], edits)
    ensures AllCarry(codec, after, policy, items[..i + 1], edits)
  {
    forall item | item in items[..i + 1]
      ensures ItemCarries(codec, after, policy, item, edits)
    {
      if item != items[i] {
        assert item in items[..i];
        var id := TextMember(item, "id").value;
        CarriesKept(codec, before, after, policy, id, edits(id));
      }
    }
  }

  /** The body of that loop: the case the item names, with its row. */
  method PrepareItem(codec: Codec, directory: Directory, policy: Json, item: Json, edits: string -> seq<Edit>)
    returns (row: Option<(string, Json)>)
    requires codec.Faithful()
    modifies directory
    ensures Within(old(directory.files), directory.files, ItemPlan(codec, old(directory.files), policy, item, edits))
    ensures row.Some? <==>
            && ItemEditable(codec, old(directory.files), policy, item, edits)
            && Fits(old(directory.files), ItemPlan(codec, old(directory.files), policy, item, edits))
    ensures row.Some? ==>
              && Done(old(directory.files), directory.files, ItemPlan(codec, old(directory.files), policy, item, edits))
              && ItemCarries(codec, directory.files, policy, item, edits)
              && TextMember(item, "id") == Some(row.value.0)
              && PreparedCaseOk(codec, directory.files, policy, row.value.0, row.value.1)
  {
    var id := TextMember(item, "id");
    if id.None? {
      return None;
    }
    var values := PrepareCase(codec, directory, policy, id.value, edits(id.value));
    return if values.None? then None else Some((id.value, values.value));
  }

  /** The loop over the frozen cases: it succeeds exactly if all edits go through and no file is in the
      way. */
  method PrepareCases(codec: Codec, directory: Directory, policy: Json, items: seq<Json>,
                      edits: string -> seq<Edit>) returns (rows: Option<map<string, Json>>)
    requires codec.Faithful()
    modifies directory
    ensures Within(old(directory.files), directory.files,
                   PreparePlan(codec, old(directory.files), policy, items, edits))
    ensures rows.Some? <==>
            && AllEditable(codec, old(directory.files), policy, items, edits)
            && Fits(old(directory.files), PreparePlan(codec, old(directory.files), policy, items, edits))
    ensures rows.Some? ==> AllCarry(codec, directory.files, policy, items, edits)
    ensures rows.Some? ==> RowsOk(codec, directory.files, policy, rows.value) && RowsFor(items, rows.value)
  {
    ghost var before := directory.files;
    var table: map<string, Json> := map[];
    for i := 0 to |items|
      invariant Done(before, directory.files, PreparePlan(codec, before, policy, items[..i], edits))
      invariant AllEditable(codec, before, policy, items[..i], edits)
      invariant AllCarry(codec, directory.files, policy, items[..i], edits)
      invariant RowsOk(codec, directory.files, policy, table) && RowsFor(items[..i], table)
    {
      ghost var reached := directory.files;
      NextItemKept(codec, before, reached, policy, items, edits, i);
      EditableMore(codec, before, policy, items, edits, i);
      var row := PrepareItem(codec, directory, policy, items[i], edits);
      OneMoreItem(codec, before, reached, directory.files, policy, items, edits, i);
      if row.None? {
        return None;
      }
      CarryMore(codec, reached, directory.files, policy, items, edits, i);
      RowsMore(codec, reached, directory.files, policy, items, i, table, row.value.1);
      table := table[row.value.0 := row.value.1];
    }
    assert items[..|items|] == items;
    return Some(table);
  }

  lemma RowsMore(codec: Codec, before: Files, after: Files, policy: Json, items: seq<Json>, i: nat,
                 rows: map<string, Json>, row: Json)
    requires i < |items| && Grows(before, after) && RowsOk(codec, before, policy, rows) && RowsFor(items[..i], rows)
    requires TextMember(items[i], "id").Some?
    requires PreparedCaseOk(codec, after, policy, TextMember(items[i], "id").value, row)
    ensures var rows' := rows[TextMember(items[i], "id").value := row];
            RowsOk(codec, after, policy, rows') && RowsFor(items[..i + 1], rows')
  {
    var id := TextMember(items[i], "id").value;
    RowsKept(codec, before, after, policy, rows);
    RowAdded(codec, after, policy, rows, id, row);
    RowsForOneMore(items, i, rows, id, row);
  }

  /** What the preparation record pins, once it is written. */
  ghost predicate Recorded(codec: Codec, files: Files, record: Json, policy: Json, rows: map<string, Json>,
                           producers: set<string>, experiments: set<string>) {
    && Intact(codec, files) && Traced(codec, files)
    && PolicyTable(codec, files) == policy && policy.Obj?
    && RowsOk(codec, files, policy, rows)
    && FreezeFile in files && ProvenanceFile in files && PolicyFile in files
    && (forall name | name in producers + experiments :: SourceFile(name) in files)
    && record == RecordOf(rows, codec.digest(files[FreezeFile]), codec.digest(files[ProvenanceFile]),
                          codec.digest(files[PolicyFile]), DigestTable(codec, files, producers),
                          DigestTable(codec, files, experiments))
  }

  lemma RecordedIsOk(codec: Codec, files: Files, record: Json, policy: Json, rows: map<string, Json>,
                     producers: set<string>, experiments: set<string>)
    requires Recorded(codec, files, record, policy, rows, producers, experiments)
    ensures PreparedOk(codec, files, record) && CaseTable(record) == Some(rows)
  {
    var p, e := DigestTable(codec, files, producers), DigestTable(codec, files, experiments);
    RecordMembers(rows, codec.digest(files[FreezeFile]), codec.digest(files[ProvenanceFile]),
                  codec.digest(files[PolicyFile]), p, e);
    forall name | name in p + e
      ensures Matches(codec, files, SourceFile(name), TextMember(Obj(p + e), name))
    {
      assert (p + e)[name] == Text(codec.digest(files[SourceFile(name)]));
    }
  }

  lemma RecordedKept(codec: Codec, before: Files, after: Files, record: Json, policy: Json,
                     rows: map<string, Json>, producers: set<string>, experiments: set<string>)
    requires Grows(before, after)
    requires Recorded(codec, before, record, policy, rows, producers, experiments)
    ensures Recorded(codec, after, record, policy, rows, producers, experiments)
  {
    IntactKept(codec, before, after);
    TracedKept(codec, before, after);
    RowsKept(codec, before, after, policy, rows);
    if ReadDoc(codec, before, PolicyFile).Some? {
      ReadKept(codec, before, after, PolicyFile);
    }
    assert DigestTable(codec, after, producers) == DigestTable(codec, before, producers);
    assert DigestTable(codec, after, experiments) == DigestTable(codec, before, experiments);
  }

  /** The policy document: its table of additional paths, with whatever else it says. */
  function PolicyOf(table: map<string, Json>, header: map<string, Json>): Json {
    Obj(header["additional_paths" := Obj(table)])
  }

  /** The policy written before anything is prepared. */
  method WritePolicy(codec: Codec, directory: Directory, table: map<string, Json>,
                     header: map<string, Json>) returns (ok: bool)
    requires codec.Faithful()
    modifies directory
    ensures Grows(old(directory.files), directory.files)
    ensures ok <==> (PolicyFile in old(directory.files) ==>
                       old(directory.files)[PolicyFile] == codec.canonical(PolicyOf(table, header)))
    ensures ok ==> PolicyTable(codec, directory.files) == Obj(table) && PolicyFile in directory.files
    ensures forall p | p in directory.files && p !in old(directory.files) :: p == PolicyFile
  {
    var policy := PolicyOf(table, header);
    ok := directory.Save(PolicyFile, codec.canonical(policy));
    assert codec.parse(codec.canonical(policy)) == Some(policy);
  }

  /** The frozen cases of an intact directory. */
  function FrozenItems(codec: Codec, files: Files): seq<Json> {
    CaseItems(ReadDoc(codec, files, FreezeFile).GetOr(Null)).GetOr([])
  }

  /** What a first `prepare` needs of a directory whose pool is intact: all edits go through, nothing is in
      the way of the prepared files, and the listed sources exist. */
  ghost predicate Preparable(codec: Codec, files: Files, policy: Json, items: seq<Json>,
                             edits: string -> seq<Edit>, sources: set<string>) {
    && AllEditable(codec, files, policy, items, edits)
    && Fits(files, PreparePlan(codec, files, policy, items, edits))
    && forall name | name in sources :: SourceFile(name) in files
  }

  /** What comes before the cases: an intact pool, its provenance, and a policy that is new or the same. */
  ghost predicate Suppliable(codec: Codec, files: Files, traces: seq<CaseTrace>, policy: Json) {
    && Intact(codec, files)
    && (if ProvenanceFile in files then Traced(codec, files) else Fits(files, ArchivePlan(traces)))
    && (PolicyFile in files ==> files[PolicyFile] == codec.canonical(policy))
  }

  /** `prepare`: never changes an existing file; what it leaves when it succeeds, on a first run or on
      a later one, is what `verify_prepared` accepts, and the rows it returns are the recorded ones.  On
      a first run every frozen case has a row and is prepared as its edits say; and it succeeds exactly
      if the edits go through and nothing is in the way of what it writes. */
  method Prepare(codec: Codec, directory: Directory, traces: seq<CaseTrace>, traceHeader: map<string, Json>,
                 table: map<string, Json>, header: map<string, Json>, edits: string -> seq<Edit>,
                 producers: set<string>, experiments: set<string>) returns (rows: Option<map<string, Json>>)
    requires codec.Faithful()
    modifies directory
    ensures Grows(old(directory.files), directory.files)
    ensures rows.Some? ==>
              var record := ReadDoc(codec, directory.files, PreparedFile);
              && record.Some? && PreparedOk(codec, directory.files, record.value)
              && rows == CaseTable(record.value)
    ensures rows.Some? && PreparedFile !in old(directory.files) ==>
              && RowsFor(FrozenItems(codec, old(directory.files)), rows.value)
              && AllCarry(codec, directory.files, Obj(table), FrozenItems(codec, old(directory.files)), edits)
    ensures PreparedFile !in old(directory.files) ==>
              (rows.Some? <==>
                 && Suppliable(codec, old(directory.files), traces, PolicyOf(table, header))
                 && Preparable(codec, old(directory.files), Obj(table), FrozenItems(codec, old(directory.files)),
                               edits, producers + experiments))
    ensures PreparedFile in old(directory.files) ==>
              (rows.Some? <==>
                 && Suppliable(codec, old(directory.files), traces, PolicyOf(table, header))
                 && ReadDoc(codec, directory.files, PreparedFile).Some?
                 && PreparedOk(codec, directory.files, ReadDoc(codec, directory.files, PreparedFile).value))
  {
    var frozen := Verify(codec, directory.files);
    if frozen.None? {
      return None;
    }
    ghost var before := directory.files;
    var ok := Supplement(codec, directory, traces, traceHeader);
    if !ok {
      return None;
    }
    ghost var supplemented := directory.files;
    ok := WritePolicy(codec, directory, table, header);
    if !ok {
      return None;
    }
    TracedKept(codec, supplemented, directory.files);
    IntactKept(codec, before, directory.files);
    if PreparedFile in directory.files {
      rows := VerifyPrepared(codec, directory.files);
      return;
    }
    var items := CaseItems(frozen.value).value;
    ghost var ready := directory.files;
    rows := PrepareNew(codec, directory, Obj(table), items, edits, producers, experiments);
    PreparableKept(codec, before, ready, Obj(table), items, edits, producers + experiments);
  }

  /** The provenance and the policy do not bear on what the cases need. */
  lemma PreparableKept(codec: Codec, before: Files, after: Files, policy: Json, items: seq<Json>,
                       edits: string -> seq<Edit>, sources: set<string>)
    requires Grows(before, after)
    requires forall p | p in after && p !in before :: p.ArchivedFile? || p == ProvenanceFile || p == PolicyFile
    ensures Preparable(codec, after, policy, items, edits, sources) <==>
            Preparable(codec, before, policy, items, edits, sources)
  {
    forall item | item in items
      ensures ItemEditable(codec, after, policy, item, edits) == ItemEditable(codec, before, policy, item, edits)
    {
      ItemKept(codec, before, after, policy, item, edits);
    }
    PlanKept(codec, before, after, policy, items, edits);
    PlannedFiles(codec, before, policy, items, edits);
  }

  lemma {:induction false} PlanKept(codec: Codec, before: Files, after: Files, policy: Json, items: seq<Json>,
                                    edits: string -> seq<Edit>)
    requires Grows(before, after)
    requires forall p: FilePath | p.CaseFile? && p in after :: p in before
    ensures PreparePlan(codec, after, policy, items, edits) == PreparePlan(codec, before, policy, items, edits)
  {
    if items != [] {
      PlanKept(codec, before, after, policy, items[..|items| - 1], edits);
      ItemKept(codec, before, after, policy, items[|items| - 1], edits);
    }
  }

  /** The part of `prepare` that a directory without a record still needs. */
  method PrepareNew(codec: Codec, directory: Directory, policy: Json, items: seq<Json>,
                    edits: string -> seq<Edit>, producers: set<string>, experiments: set<string>)
    returns (rows: Option<map<string, Json>>)
    requires codec.Faithful() && Intact(codec, directory.files) && Traced(codec, directory.files)
    requires FreezeFile in directory.files && PreparedFile !in directory.files
    requires PolicyTable(codec, directory.files) == policy && policy.Obj?
    requires PolicyFile in directory.files && ProvenanceFile in directory.files
    modifies directory
    ensures Grows(old(directory.files), directory.files)
    ensures rows.Some? <==>
            Preparable(codec, old(directory.files), policy, items, edits, producers + experiments)
    ensures rows.Some? ==> RowsFor(items, rows.value) && AllCarry(codec, directory.files, policy, items, edits)
    ensures rows.Some? ==>
              var record := ReadDoc(codec, directory.files, PreparedFile);
              && record.Some? && PreparedOk(codec, directory.files, record.value)
              && rows == CaseTable(record.value)
  {
    ghost var before := directory.files;
    rows := PrepareCases(codec, directory, policy, items, edits);
    PlannedFiles(codec, before, policy, items, edits);
    if rows.None? || exists name | name in producers + experiments :: SourceFile(name) !in directory.files {
      return None;
    }
    IntactKept(codec, before, directory.files);
    TracedKept(codec, before, directory.files);
    if ReadDoc(codec, before, PolicyFile).Some? {
      ReadKept(codec, before, directory.files, PolicyFile);
    }
    var files := directory.files;
    var record := RecordOf(rows.value, codec.digest(files[FreezeFile]), codec.digest(files[ProvenanceFile]),
                           codec.digest(files[PolicyFile]), DigestTable(codec, files, producers),
                           DigestTable(codec, files, experiments));
    var ok := directory.Save(PreparedFile, codec.canonical(record));
    RecordedKept(codec, files, directory.files, record, policy, rows.value, producers, experiments);
    RecordedIsOk(codec, directory.files, record, policy, rows.value, producers, experiments);
    AllCarryKept(codec, files, directory.files, policy, items, edits);
    assert codec.parse(codec.canonical(record)) == Some(record);
  }

  lemma AllCarryKept(codec: Codec, before: Files, after: Files, policy: Json, items: seq<Json>,
                     edits: string -> seq<Edit>)
    requires Grows(before, after) && AllCarry(codec, before, policy, items, edits)
    ensures AllCarry(codec, after, policy, items, edits)
  {
    forall item | item in items
      ensures ItemCarries(codec, after, policy, item, edits)
    {
      var id := TextMember(item, "id").value;
      assert ItemCarries(codec, before, policy, item, edits);
      CarriesKept(codec, before, after, policy, id, edits(id));
    }
  }
}
