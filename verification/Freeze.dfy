/** Capturing immutable inputs, and the hash chain that pins every captured file to one root. */
module Freeze {
  import opened Wrappers
  import opened JsonTree
  import opened Store

  function Member(v: Json, key: string): Option<Json> {
    if v.Obj? && key in v.fields then Some(v.fields[key]) else None
  }

  function TextMember(v: Json, key: string): Option<string> {
    match Member(v, key)
    case Some(Text(s)) => Some(s)
    case _ => None
  }

  /** `read(path)` */
  function ReadDoc(codec: Codec, files: Files, path: FilePath): Option<Json> {
    if path in files then codec.parse(files[path]) else None
  }

  /** The file exists and has this digest. */
  predicate Matches(codec: Codec, files: Files, path: FilePath, digest: Option<string>) {
    path in files && Some(codec.digest(files[path])) == digest
  }

  /** Every evidence file the manifest lists has the digest it lists. */
  ghost predicate EvidenceIntact(codec: Codec, files: Files, id: string, manifest: Json) {
    match Member(manifest, "source_evidence_hashes")
    case Some(Obj(table)) =>
      forall name | name in table :: Matches(codec, files, CaseFile(id, name), TextMember(Obj(table), name))
    case _ => false
  }

  /** The manifest has the digest the root lists, and the request and evidence those it lists. */
  ghost predicate CaseIntact(codec: Codec, files: Files, item: Json) {
    match TextMember(item, "id")
    case None => false
    case Some(id) =>
      && Matches(codec, files, CaseFile(id, "manifest.json"), TextMember(item, "manifest_sha256"))
      && match ReadDoc(codec, files, CaseFile(id, "manifest.json"))
         case None => false
         case Some(manifest) =>
           && Matches(codec, files, CaseFile(id, "request.json"), TextMember(manifest, "request_sha256"))
           && EvidenceIntact(codec, files, id, manifest)
  }

  function CaseItems(root: Json): Option<seq<Json>> {
    match Member(root, "cases")
    case Some(Arr(items)) => Some(items)
    case _ => None
  }

  /** The whole chain below `freeze.json` holds. */
  ghost predicate Intact(codec: Codec, files: Files) {
    match ReadDoc(codec, files, FreezeFile)
    case None => false
    case Some(root) =>
      match CaseItems(root)
      case None => false
      case Some(items) => forall item | item in items :: CaseIntact(codec, files, item)
  }

  // ---------- verify ----------

  method VerifyEvidence(codec: Codec, files: Files, id: string, manifest: Json) returns (ok: bool)
    ensures ok <==> EvidenceIntact(codec, files, id, manifest)
  {
    var hashes := Member(manifest, "source_evidence_hashes");
    if hashes.None? || !hashes.value.Obj? {
      return false;
    }
    var table := hashes.value.fields;
    var left := table.Keys;
    while left != {}
      invariant left <= table.Keys
      invariant forall name | name in table.Keys - left ::
                  Matches(codec, files, CaseFile(id, name), TextMember(Obj(table), name))
    {
      var name :| name in left;
      if !Matches(codec, files, CaseFile(id, name), TextMember(Obj(table), name)) {
        return false;
      }
      left := left - {name};
    }
    return true;
  }

  method VerifyCase(codec: Codec, files: Files, item: Json) returns (ok: bool)
    ensures ok <==> CaseIntact(codec, files, item)
  {
    var id := TextMember(item, "id");
    if id.None? || !Matches(codec, files, CaseFile(id.value, "manifest.json"), TextMember(item, "manifest_sha256")) {
      return false;
    }
    var manifest := ReadDoc(codec, files, CaseFile(id.value, "manifest.json"));
    if manifest.None?
       || !Matches(codec, files, CaseFile(id.value, "request.json"), TextMember(manifest.value, "request_sha256")) {
      return false;
    }
    ok := VerifyEvidence(codec, files, id.value, manifest.value);
  }

  /** `verify`: the frozen record, or a refusal if anything below it changed. */
  method Verify(codec: Codec, files: Files) returns (frozen: Option<Json>)
    ensures frozen.Some? <==> Intact(codec, files)
    ensures frozen.Some? ==> frozen == ReadDoc(codec, files, FreezeFile)
  {
    var root := ReadDoc(codec, files, FreezeFile);
    if root.None? {
      return None;
    }
    var items := CaseItems(root.value);
    if items.None? {
      return None;
    }
    for i := 0 to |items.value|
      invariant forall j | 0 <= j < i :: CaseIntact(codec, files, items.value[j])
    {
      var ok := VerifyCase(codec, files, items.value[i]);
      if !ok {
        return None;
      }
    }
    return root;
  }

  // ---------- tamper evidence ----------

  /** The files a frozen root answers for: manifests, requests and listed evidence. */
  ghost predicate Pinned(codec: Codec, files: Files, path: FilePath) {
    exists item :: item in CaseItems(ReadDoc(codec, files, FreezeFile).GetOr(Null)).GetOr([])
                   && PinnedBy(codec, files, item, path)
  }

  ghost predicate PinnedBy(codec: Codec, files: Files, item: Json, path: FilePath) {
    match TextMember(item, "id")
    case None => false
    case Some(id) =>
      || path == CaseFile(id, "manifest.json")
      || path == CaseFile(id, "request.json")
      || match Member(ReadDoc(codec, files, CaseFile(id, "manifest.json")).GetOr(Null), "source_evidence_hashes")
         case Some(Obj(table)) => exists name :: name in table && path == CaseFile(id, name)
         case _ => false
  }

  lemma CasePinned(codec: Codec, before: Files, after: Files, item: Json, path: FilePath)
    requires codec.Faithful()
    requires CaseIntact(codec, before, item) && CaseIntact(codec, after, item)
    requires PinnedBy(codec, before, item, path)
    ensures path in before && path in after && before[path] == after[path]
  {
    var id := TextMember(item, "id").value;
    var root := CaseFile(id, "manifest.json");
    assert before[root] == after[root];
    var manifest := codec.parse(before[root]).value;
    if path != root && path != CaseFile(id, "request.json") {
      var table := Member(manifest, "source_evidence_hashes").value.fields;
      var name :| name in table && path == CaseFile(id, name);
      assert Matches(codec, before, path, TextMember(Obj(table), name));
      assert Matches(codec, after, path, TextMember(Obj(table), name));
    }
  }

  /** Two states of the directory with the same root file that both verify agree, byte for byte, on
      every file the root answers for. */
  lemma TamperEvidence(codec: Codec, before: Files, after: Files, path: FilePath)
    requires codec.Faithful()
    requires FreezeFile in before && FreezeFile in after && before[FreezeFile] == after[FreezeFile]
    requires Intact(codec, before) && Intact(codec, after)
    requires Pinned(codec, before, path)
    ensures path in before && path in after && before[path] == after[path]
  {
    var item :| item in CaseItems(ReadDoc(codec, before, FreezeFile).GetOr(Null)).GetOr([])
                && PinnedBy(codec, before, item, path);
    CasePinned(codec, before, after, item, path);
  }

  // ---------- freeze ----------

  /** What is captured for one case; `details` are the manifest fields that carry no digest. */
  datatype CaseSource = CaseSource(id: string, raw: Bytes, evidence: map<string, Bytes>,
                                   details: map<string, Json>)

  function ManifestOf(codec: Codec, c: CaseSource): Json {
    Obj(c.details
          ["request_sha256" := Text(codec.digest(c.raw))]
          ["source_evidence_hashes" := Obj(map name | name in c.evidence :: Text(codec.digest(c.evidence[name])))])
  }

  function ItemOf(codec: Codec, c: CaseSource): Json {
    Obj(map["id" := Text(c.id),
            "manifest_sha256" := Text(codec.digest(codec.canonical(ManifestOf(codec, c))))])
  }

  function RootOf(codec: Codec, sources: seq<CaseSource>, header: map<string, Json>): Json {
    Obj(header["cases" := Arr(seq(|sources|, i requires 0 <= i < |sources| => ItemOf(codec, sources[i])))])
  }

  /** Everything captured for the case is on disk. */
  ghost predicate Captured(codec: Codec, files: Files, c: CaseSource) {
    && CaseFile(c.id, "request.json") in files && files[CaseFile(c.id, "request.json")] == c.raw
    && (forall name | name in c.evidence ::
          CaseFile(c.id, name) in files && files[CaseFile(c.id, name)] == c.evidence[name])
    && CaseFile(c.id, "manifest.json") in files
    && files[CaseFile(c.id, "manifest.json")] == codec.canonical(ManifestOf(codec, c))
  }

  lemma CapturedIsIntact(codec: Codec, files: Files, c: CaseSource)
    requires codec.Faithful() && Captured(codec, files, c)
    ensures CaseIntact(codec, files, ItemOf(codec, c))
  {
    var manifest, item := ManifestOf(codec, c), ItemOf(codec, c);
    assert codec.parse(codec.canonical(manifest)) == Some(manifest);
    assert TextMember(item, "id") == Some(c.id);
    var table := Member(manifest, "source_evidence_hashes").value.fields;
    forall name | name in table
      ensures Matches(codec, files, CaseFile(c.id, name), TextMember(Obj(table), name))
    {
      assert name in c.evidence;
    }
  }

  lemma CapturedGrows(codec: Codec, before: Files, after: Files, c: CaseSource)
    requires Captured(codec, before, c) && Grows(before, after)
    ensures Captured(codec, after, c)
  {
  }

  /** The evidence files of a case. */
  function EvidencePlan(c: CaseSource, names: set<string>): Plan
    requires names <= c.evidence.Keys
  {
    set name | name in names :: (CaseFile(c.id, name), c.evidence[name])
  }

  /** The files captured for a case. */
  function CasePlan(codec: Codec, c: CaseSource): Plan {
    {(CaseFile(c.id, "request.json"), c.raw)} + EvidencePlan(c, c.evidence.Keys)
    + {(CaseFile(c.id, "manifest.json"), codec.canonical(ManifestOf(codec, c)))}
  }

  function CasesPlan(codec: Codec, sources: seq<CaseSource>): Plan {
    if sources == [] then {}
    else CasesPlan(codec, sources[..|sources| - 1]) + CasePlan(codec, sources[|sources| - 1])
  }

  method CaptureEvidence(directory: Directory, c: CaseSource) returns (ok: bool)
    modifies directory
    ensures ok <==> Fits(old(directory.files), EvidencePlan(c, c.evidence.Keys))
    ensures ok ==> Done(old(directory.files), directory.files, EvidencePlan(c, c.evidence.Keys))
    ensures Within(old(directory.files), directory.files, EvidencePlan(c, c.evidence.Keys))
  {
    ghost var before := directory.files;
    var left := c.evidence.Keys;
    while left != {}
      invariant left <= c.evidence.Keys
      invariant Done(before, directory.files, EvidencePlan(c, c.evidence.Keys - left))
    {
      var name :| name in left;
      ghost var middle := directory.files;
      ok := directory.Save(CaseFile(c.id, name), c.evidence[name]);
      OneMoreFile(before, middle, directory.files, c, left, name);
      if !ok {
        return;
      }
      left := left - {name};
    }
    assert c.evidence.Keys - left == c.evidence.Keys;
    return true;
  }

  /** One turn of that loop. */
  lemma OneMoreFile(before: Files, middle: Files, after: Files, c: CaseSource, left: set<string>, name: string)
    requires name in left && left <= c.evidence.Keys
    requires Done(before, middle, EvidencePlan(c, c.evidence.Keys - left))
    requires Within(middle, after, {(CaseFile(c.id, name), c.evidence[name])})
    ensures Within(before, after, EvidencePlan(c, c.evidence.Keys))
    ensures Done(middle, after, {(CaseFile(c.id, name), c.evidence[name])}) ==>
              Done(before, after, EvidencePlan(c, c.evidence.Keys - (left - {name})))
    ensures Fits(before, EvidencePlan(c, c.evidence.Keys)) ==>
              Fits(middle, {(CaseFile(c.id, name), c.evidence[name])})
  {
    var first, one: Plan := EvidencePlan(c, c.evidence.Keys - left), {(CaseFile(c.id, name), c.evidence[name])};
    assert EvidencePlan(c, c.evidence.Keys - (left - {name})) == first + one;
    PlanStep(before, middle, after, first, one, EvidencePlan(c, c.evidence.Keys));
  }

  /** Capturing a case succeeds exactly if no file is in the way, and writes only what belongs to it. */
  method CaptureCase(codec: Codec, directory: Directory, c: CaseSource) returns (ok: bool)
    modifies directory
    ensures Grows(old(directory.files), directory.files)
    ensures ok <==> Fits(old(directory.files), CasePlan(codec, c))
    ensures ok ==> Done(old(directory.files), directory.files, CasePlan(codec, c))
    ensures ok ==> Captured(codec, directory.files, c)
    ensures Within(old(directory.files), directory.files, CasePlan(codec, c))
  {
    ghost var before := directory.files;
    ghost var request: Plan := {(CaseFile(c.id, "request.json"), c.raw)};
    ghost var evidence := EvidencePlan(c, c.evidence.Keys);
    ghost var last: Plan := {(CaseFile(c.id, "manifest.json"), codec.canonical(ManifestOf(codec, c)))};
    ok := directory.Save(CaseFile(c.id, "request.json"), c.raw);
    PlanStep(before, before, directory.files, {}, request, CasePlan(codec, c));
    if !ok {
      return;
    }
    ghost var first := directory.files;
    ok := CaptureEvidence(directory, c);
    PlanStep(before, first, directory.files, request, evidence, CasePlan(codec, c));
    if !ok {
      return;
    }
    ghost var second := directory.files;
    ok := directory.Save(CaseFile(c.id, "manifest.json"), codec.canonical(ManifestOf(codec, c)));
    PlanStep(before, second, directory.files, request + evidence, last, CasePlan(codec, c));
    if ok {
      DoneIsCaptured(codec, before, directory.files, c, CasePlan(codec, c));
    }
  }

  lemma DoneIsCaptured(codec: Codec, before: Files, after: Files, c: CaseSource, plan: Plan)
    requires Done(before, after, plan) && CasePlan(codec, c) <= plan
    ensures Captured(codec, after, c)
  {
    assert (CaseFile(c.id, "request.json"), c.raw) in CasePlan(codec, c);
    assert (CaseFile(c.id, "manifest.json"), codec.canonical(ManifestOf(codec, c))) in CasePlan(codec, c);
    forall name | name in c.evidence
      ensures CaseFile(c.id, name) in after && after[CaseFile(c.id, name)] == c.evidence[name]
    {
      assert (CaseFile(c.id, name), c.evidence[name]) in CasePlan(codec, c);
    }
  }

  /** After all of it, every case is captured. */
  lemma AllCaptured(codec: Codec, before: Files, after: Files, sources: seq<CaseSource>)
    requires Done(before, after, CasesPlan(codec, sources))
    ensures forall j | 0 <= j < |sources| :: Captured(codec, after, sources[j])
  {
    forall j | 0 <= j < |sources|
      ensures Captured(codec, after, sources[j])
    {
      PlanGrows(codec, sources, j + 1);
      assert sources[..j + 1][..j] == sources[..j];
      DoneIsCaptured(codec, before, after, sources[j], CasesPlan(codec, sources));
    }
  }

  /** The loop over the cases. */
  method CaptureCases(codec: Codec, directory: Directory, sources: seq<CaseSource>) returns (ok: bool)
    modifies directory
    ensures ok <==> Fits(old(directory.files), CasesPlan(codec, sources))
    ensures ok ==> Done(old(directory.files), directory.files, CasesPlan(codec, sources))
    ensures Within(old(directory.files), directory.files, CasesPlan(codec, sources))
  {
    ghost var before := directory.files;
    for i := 0 to |sources|
      invariant Done(before, directory.files, CasesPlan(codec, sources[..i]))
    {
      ghost var current := directory.files;
      ok := CaptureCase(codec, directory, sources[i]);
      OneMoreCase(codec, before, current, directory.files, sources, i);
      if !ok {
        return;
      }
    }
    assert sources[..|sources|] == sources;
    return true;
  }

  /** One turn of that loop. */
  lemma OneMoreCase(codec: Codec, before: Files, current: Files, after: Files, sources: seq<CaseSource>, i: nat)
    requires i < |sources| && Done(before, current, CasesPlan(codec, sources[..i]))
    requires Within(current, after, CasePlan(codec, sources[i]))
    ensures Within(before, after, CasesPlan(codec, sources))
    ensures Done(current, after, CasePlan(codec, sources[i])) ==>
              Done(before, after, CasesPlan(codec, sources[..i + 1]))
    ensures Fits(before, CasesPlan(codec, sources)) ==> Fits(current, CasePlan(codec, sources[i]))
  {
    var first, one := CasesPlan(codec, sources[..i]), CasePlan(codec, sources[i]);
    assert sources[..i + 1][..i] == sources[..i];
    assert CasesPlan(codec, sources[..i + 1]) == first + one;
    PlanGrows(codec, sources, i + 1);
    PlanStep(before, current, after, first, one, CasesPlan(codec, sources));
  }

  /** What is planned for the first cases is planned for all. */
  lemma {:induction false} PlanGrows(codec: Codec, sources: seq<CaseSource>, i: nat)
    requires i <= |sources|
    ensures CasesPlan(codec, sources[..i]) <= CasesPlan(codec, sources)
  {
    if i < |sources| {
      PlanGrows(codec, sources[..|sources| - 1], i);
      assert sources[..|sources| - 1][..i] == sources[..i];
    } else {
      assert sources[..i] == sources;
    }
  }

  /** `freeze`: never changes an existing file, whether it succeeds, fails half-way or is run again;
      what it leaves when it succeeds verifies; and it succeeds exactly if the pool that is there
      verifies or, on a first run, nothing is in the way of what it captures. */
  method FreezeCases(codec: Codec, directory: Directory, sources: seq<CaseSource>,
                     header: map<string, Json>) returns (frozen: Option<Json>)
    requires codec.Faithful()
    modifies directory
    ensures Grows(old(directory.files), directory.files)
    ensures frozen.Some? ==> Intact(codec, directory.files)
    ensures frozen.Some? ==> frozen == ReadDoc(codec, directory.files, FreezeFile)
    ensures frozen.Some? && FreezeFile !in old(directory.files) ==>
              frozen == Some(RootOf(codec, sources, header))
              && forall c | c in sources :: Captured(codec, directory.files, c)
    ensures FreezeFile in old(directory.files) ==>
              directory.files == old(directory.files) && (frozen.Some? <==> Intact(codec, directory.files))
    ensures FreezeFile !in old(directory.files) ==>
              (frozen.Some? <==> Fits(old(directory.files), CasesPlan(codec, sources)))
              && Within(old(directory.files), directory.files,
                        CasesPlan(codec, sources) + {(FreezeFile, codec.canonical(RootOf(codec, sources, header)))})
  {
    if FreezeFile in directory.files {
      frozen := Verify(codec, directory.files);
      return;
    }
    ghost var before := directory.files;
    var root := RootOf(codec, sources, header);
    var ok := CaptureCases(codec, directory, sources);
    if !ok {
      return None;
    }
    ghost var current := directory.files;
    CasesPlanned(codec, sources);
    AllCaptured(codec, before, current, sources);
    ok := directory.Save(FreezeFile, codec.canonical(root));
    WithinMore(before, current, directory.files, CasesPlan(codec, sources), {(FreezeFile, codec.canonical(root))});
    forall j | 0 <= j < |sources|
      ensures Captured(codec, directory.files, sources[j])
    {
      CapturedGrows(codec, current, directory.files, sources[j]);
    }
    RootIsIntact(codec, directory.files, sources, header);
    return Some(root);
  }

  /** Capturing cases writes case files only. */
  lemma {:induction false} CasesPlanned(codec: Codec, sources: seq<CaseSource>)
    ensures forall w | w in CasesPlan(codec, sources) :: w.0.CaseFile?
  {
    if sources != [] {
      CasesPlanned(codec, sources[..|sources| - 1]);
    }
  }

  lemma RootIsIntact(codec: Codec, files: Files, sources: seq<CaseSource>, header: map<string, Json>)
    requires codec.Faithful()
    requires FreezeFile in files && files[FreezeFile] == codec.canonical(RootOf(codec, sources, header))
    requires forall j | 0 <= j < |sources| :: Captured(codec, files, sources[j])
    ensures Intact(codec, files)
    ensures ReadDoc(codec, files, FreezeFile) == Some(RootOf(codec, sources, header))
  {
    var root := RootOf(codec, sources, header);
    assert codec.parse(codec.canonical(root)) == Some(root);
    var items := CaseItems(root).value;
    forall item | item in items
      ensures CaseIntact(codec, files, item)
    {
      var i :| 0 <= i < |items| && items[i] == item;
      CapturedIsIntact(codec, files, sources[i]);
    }
  }
}
