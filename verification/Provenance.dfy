/** The archived evidence on where the frozen cases come from, and its verification. */
module Provenance {
  import opened Wrappers
  import opened JsonTree
  import opened Store
  import opened Freeze

  /** The archived file exists and has the digest recorded with it. */
  predicate ArchivedOk(codec: Codec, files: Files, entry: Json) {
    match TextMember(entry, "saved")
    case None => false
    case Some(path) => Matches(codec, files, ArchivedFile(path), TextMember(entry, "sha256"))
  }

  ghost predicate CaseArchived(codec: Codec, files: Files, item: Json) {
    match Member(item, "evidence_files")
    case Some(Obj(table)) => forall name | name in table :: ArchivedOk(codec, files, table[name])
    case _ => false
  }

  /** The record belongs to the frozen pool, and all evidence it lists is unchanged. */
  ghost predicate Traced(codec: Codec, files: Files) {
    match ReadDoc(codec, files, ProvenanceFile)
    case None => false
    case Some(record) =>
      && Matches(codec, files, FreezeFile, TextMember(record, "freeze_sha256"))
      && match CaseItems(record)
         case None => false
         case Some(items) => forall item | item in items :: CaseArchived(codec, files, item)
  }

  method VerifyArchive(codec: Codec, files: Files, item: Json) returns (ok: bool)
    ensures ok <==> CaseArchived(codec, files, item)
  {
    var evidence := Member(item, "evidence_files");
    if evidence.None? || !evidence.value.Obj? {
      return false;
    }
    var table := evidence.value.fields;
    var left := table.Keys;
    while left != {}
      invariant left <= table.Keys
      invariant forall name | name in table.Keys - left :: ArchivedOk(codec, files, table[name])
    {
      var name :| name in left;
      if !ArchivedOk(codec, files, table[name]) {
        return false;
      }
      left := left - {name};
    }
    return true;
  }

  /** `verify_provenance`: the record, or a refusal if it is another pool's or evidence changed. */
  method VerifyProvenance(codec: Codec, files: Files) returns (record: Option<Json>)
    ensures record.Some? <==> Traced(codec, files)
    ensures record.Some? ==> record == ReadDoc(codec, files, ProvenanceFile)
  {
    record := ReadDoc(codec, files, ProvenanceFile);
    if record.None? || !Matches(codec, files, FreezeFile, TextMember(record.value, "freeze_sha256")) {
      return None;
    }
    var items := CaseItems(record.value);
    if items.None? {
      return None;
    }
    for i := 0 to |items.value|
      invariant forall j | 0 <= j < i :: CaseArchived(codec, files, items.value[j])
    {
      var ok := VerifyArchive(codec, files, items.value[i]);
      if !ok {
        return None;
      }
    }
  }

  // ---------- supplement ----------

  /** What is archived under one name: where to, and the bytes of the source. */
  datatype Exhibit = Exhibit(saved: string, source: string, data: Bytes)

  datatype CaseTrace = CaseTrace(exhibits: map<string, Exhibit>, details: map<string, Json>)

  function EntryOf(codec: Codec, e: Exhibit): Json {
    Obj(map["source" := Text(e.source), "sha256" := Text(codec.digest(e.data)), "saved" := Text(e.saved)])
  }

  function TraceItem(codec: Codec, c: CaseTrace): Json {
    Obj(c.details["evidence_files" :=
          Obj(map name | name in c.exhibits :: EntryOf(codec, c.exhibits[name]))])
  }

  function TraceRecord(codec: Codec, cases: seq<CaseTrace>, freeze: string, header: map<string, Json>): Json {
    Obj(header
          ["freeze_sha256" := Text(freeze)]
          ["cases" := Arr(seq(|cases|, i requires 0 <= i < |cases| => TraceItem(codec, cases[i])))])
  }

  /** Every exhibit of the case is on disk. */
  ghost predicate Archived(files: Files, c: CaseTrace) {
    forall name | name in c.exhibits ::
      && ArchivedFile(c.exhibits[name].saved) in files
      && files[ArchivedFile(c.exhibits[name].saved)] == c.exhibits[name].data
  }

  lemma EntryMembers(codec: Codec, e: Exhibit)
    ensures TextMember(EntryOf(codec, e), "saved") == Some(e.saved)
    ensures TextMember(EntryOf(codec, e), "sha256") == Some(codec.digest(e.data))
  {
    assert "sha256"[1] != "source"[1] && |"saved"| != |"sha256"| && |"saved"| != |"source"|;
  }

  lemma ArchivedIsOk(codec: Codec, files: Files, c: CaseTrace)
    requires Archived(files, c)
    ensures CaseArchived(codec, files, TraceItem(codec, c))
  {
    forall name | name in c.exhibits
      ensures ArchivedOk(codec, files, EntryOf(codec, c.exhibits[name]))
    {
      EntryMembers(codec, c.exhibits[name]);
    }
  }

  lemma TracedKept(codec: Codec, before: Files, after: Files)
    requires Grows(before, after) && Traced(codec, before)
    ensures Traced(codec, after)
  {
    var items := CaseItems(ReadDoc(codec, before, ProvenanceFile).value).value;
    forall item | item in items
      ensures CaseArchived(codec, after, item)
    {
      assert CaseArchived(codec, before, item);
    }
  }

  lemma RecordIsTraced(codec: Codec, files: Files, cases: seq<CaseTrace>, header: map<string, Json>)
    requires codec.Faithful() && FreezeFile in files && ProvenanceFile in files
    requires files[ProvenanceFile] ==
             codec.canonical(TraceRecord(codec, cases, codec.digest(files[FreezeFile]), header))
    requires forall c | c in cases :: Archived(files, c)
    ensures Traced(codec, files)
  {
    var record := TraceRecord(codec, cases, codec.digest(files[FreezeFile]), header);
    assert codec.parse(codec.canonical(record)) == Some(record);
    assert |"freeze_sha256"| != |"cases"|;
    var items := CaseItems(record).value;
    forall item | item in items
      ensures CaseArchived(codec, files, item)
    {
      var i :| 0 <= i < |items| && items[i] == item;
      ArchivedIsOk(codec, files, cases[i]);
    }
  }

  /** The exhibits of a case, under these names. */
  function ExhibitPlan(c: CaseTrace, names: set<string>): Plan
    requires names <= c.exhibits.Keys
  {
    set name | name in names :: (ArchivedFile(c.exhibits[name].saved), c.exhibits[name].data)
  }

  function ArchivePlan(cases: seq<CaseTrace>): Plan {
    if cases == [] then {}
    else
      var last := cases[|cases| - 1];
      ArchivePlan(cases[..|cases| - 1]) + ExhibitPlan(last, last.exhibits.Keys)
  }

  method ArchiveCase(directory: Directory, c: CaseTrace) returns (ok: bool)
    modifies directory
    ensures ok <==> Fits(old(directory.files), ExhibitPlan(c, c.exhibits.Keys))
    ensures ok ==> Done(old(directory.files), directory.files, ExhibitPlan(c, c.exhibits.Keys))
    ensures Within(old(directory.files), directory.files, ExhibitPlan(c, c.exhibits.Keys))
  {
    ghost var before := directory.files;
    var left := c.exhibits.Keys;
    while left != {}
      invariant left <= c.exhibits.Keys
      invariant Done(before, directory.files, ExhibitPlan(c, c.exhibits.Keys - left))
    {
      var name :| name in left;
      ghost var middle := directory.files;
      ok := directory.Save(ArchivedFile(c.exhibits[name].saved), c.exhibits[name].data);
      OneMoreExhibit(before, middle, directory.files, c, left, name);
      if !ok {
        return;
      }
      left := left - {name};
    }
    assert c.exhibits.Keys - left == c.exhibits.Keys;
    return true;
  }

  /** One turn of that loop. */
  lemma OneMoreExhibit(before: Files, middle: Files, after: Files, c: CaseTrace, left: set<string>, name: string)
    requires name in left && left <= c.exhibits.Keys
    requires Done(before, middle, ExhibitPlan(c, c.exhibits.Keys - left))
    requires Within(middle, after, {(ArchivedFile(c.exhibits[name].saved), c.exhibits[name].data)})
    ensures Within(before, after, ExhibitPlan(c, c.exhibits.Keys))
    ensures Done(middle, after, {(ArchivedFile(c.exhibits[name].saved), c.exhibits[name].data)}) ==>
              Done(before, after, ExhibitPlan(c, c.exhibits.Keys - (left - {name})))
    ensures Fits(before, ExhibitPlan(c, c.exhibits.Keys)) ==>
              Fits(middle, {(ArchivedFile(c.exhibits[name].saved), c.exhibits[name].data)})
  {
    var first := ExhibitPlan(c, c.exhibits.Keys - left);
    var one: Plan := {(ArchivedFile(c.exhibits[name].saved), c.exhibits[name].data)};
    assert ExhibitPlan(c, c.exhibits.Keys - (left - {name})) == first + one;
    PlanStep(before, middle, after, first, one, ExhibitPlan(c, c.exhibits.Keys));
  }

  /** The loop over the cases. */
  method ArchiveCases(directory: Directory, cases: seq<CaseTrace>) returns (ok: bool)
    modifies directory
    ensures ok <==> Fits(old(directory.files), ArchivePlan(cases))
    ensures ok ==> Done(old(directory.files), directory.files, ArchivePlan(cases))
    ensures Within(old(directory.files), directory.files, ArchivePlan(cases))
  {
    ghost var before := directory.files;
    for i := 0 to |cases|
      invariant Done(before, directory.files, ArchivePlan(cases[..i]))
    {
      ghost var middle := directory.files;
      ok := ArchiveCase(directory, cases[i]);
      assert cases[..i + 1][..i] == cases[..i];
      ArchiveGrows(cases, i + 1);
      PlanStep(before, middle, directory.files, ArchivePlan(cases[..i]),
               ExhibitPlan(cases[i], cases[i].exhibits.Keys), ArchivePlan(cases));
      if !ok {
        return;
      }
    }
    assert cases[..|cases|] == cases;
    return true;
  }

  /** What is planned for the first cases is planned for all, and is archived evidence. */
  lemma {:induction false} ArchiveGrows(cases: seq<CaseTrace>, i: nat)
    requires i <= |cases|
    ensures ArchivePlan(cases[..i]) <= ArchivePlan(cases)
    ensures forall w | w in ArchivePlan(cases) :: w.0.ArchivedFile?
  {
    if cases != [] {
      var front := cases[..|cases| - 1];
      ArchiveGrows(front, if i < |cases| then i else |front|);
      assert i < |cases| ==> front[..i] == cases[..i];
      assert cases[..|cases|] == cases && front[..|front|] == front;
    }
  }

  /** After all of it, every case is archived. */
  lemma AllArchived(before: Files, after: Files, cases: seq<CaseTrace>)
    requires Done(before, after, ArchivePlan(cases))
    ensures forall c | c in cases :: Archived(after, c)
  {
    forall j, name | 0 <= j < |cases| && name in cases[j].exhibits
      ensures var e := cases[j].exhibits[name];
              ArchivedFile(e.saved) in after && after[ArchivedFile(e.saved)] == e.data
    {
      ArchiveGrows(cases, j + 1);
      assert cases[..j + 1][..j] == cases[..j];
      var e := cases[j].exhibits[name];
      assert (ArchivedFile(e.saved), e.data) in ExhibitPlan(cases[j], cases[j].exhibits.Keys);
    }
  }

  /** The record of a first `supplement`. */
  function NewRecord(codec: Codec, files: Files, cases: seq<CaseTrace>, header: map<string, Json>): Json
    requires FreezeFile in files
  {
    TraceRecord(codec, cases, codec.digest(files[FreezeFile]), header)
  }

  /** `supplement`: never changes an existing file; an existing record is verified and nothing written;
      without one, all exhibits are archived before the record of them is written.  It succeeds exactly
      if the pool is intact and the record there verifies or nothing is in the way of the evidence. */
  method Supplement(codec: Codec, directory: Directory, cases: seq<CaseTrace>, header: map<string, Json>)
    returns (ok: bool)
    requires codec.Faithful()
    modifies directory
    ensures Grows(old(directory.files), directory.files)
    ensures ok ==> Traced(codec, directory.files) && FreezeFile in old(directory.files)
    ensures ok && ProvenanceFile !in old(directory.files) ==>
              && ReadDoc(codec, directory.files, ProvenanceFile)
                 == Some(NewRecord(codec, old(directory.files), cases, header))
              && forall c | c in cases :: Archived(directory.files, c)
    ensures ProvenanceFile in old(directory.files) ==>
              && directory.files == old(directory.files)
              && (ok <==> Intact(codec, directory.files) && Traced(codec, directory.files))
    ensures ProvenanceFile !in old(directory.files) ==>
              (ok <==> Intact(codec, old(directory.files)) && Fits(old(directory.files), ArchivePlan(cases)))
    ensures forall p | p in directory.files && p !in old(directory.files) :: p.ArchivedFile? || p == ProvenanceFile
  {
    var frozen := Verify(codec, directory.files);
    if frozen.None? {
      return false;
    }
    if ProvenanceFile in directory.files {
      var record := VerifyProvenance(codec, directory.files);
      return record.Some?;
    }
    ghost var before := directory.files;
    ok := ArchiveCases(directory, cases);
    ArchiveGrows(cases, 0);
    if !ok {
      return;
    }
    AllArchived(before, directory.files, cases);
    var record := NewRecord(codec, directory.files, cases, header);
    ok := directory.Save(ProvenanceFile, codec.canonical(record));
    RecordIsTraced(codec, directory.files, cases, header);
    assert codec.parse(codec.canonical(record)) == Some(record);
  }

  // ---------- tamper evidence ----------

  /** Two states with the same provenance record that both verify belong to the same pool and agree, byte
      for byte, on all evidence the record lists. */
  lemma ProvenancePins(codec: Codec, before: Files, after: Files, item: Json, name: string)
    requires codec.Faithful() && Traced(codec, before) && Traced(codec, after)
    requires before[ProvenanceFile] == after[ProvenanceFile]
    requires item in CaseItems(ReadDoc(codec, before, ProvenanceFile).value).value
    requires name in Member(item, "evidence_files").value.fields
    ensures FreezeFile in before && FreezeFile in after && before[FreezeFile] == after[FreezeFile]
    ensures var saved := TextMember(Member(item, "evidence_files").value.fields[name], "saved");
            && saved.Some? && ArchivedFile(saved.value) in before && ArchivedFile(saved.value) in after
            && before[ArchivedFile(saved.value)] == after[ArchivedFile(saved.value)]
  {
    var table := Member(item, "evidence_files").value.fields;
    assert CaseArchived(codec, before, item) && CaseArchived(codec, after, item);
    assert ArchivedOk(codec, before, table[name]) && ArchivedOk(codec, after, table[name]);
  }
}
