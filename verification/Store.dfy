/** Files as bytes, write-once saving, and the codec between documents, bytes and digests. */
module Store {
  import opened Wrappers
  import opened JsonTree

  newtype Byte = x: int | 0 <= x < 256

  type Bytes = seq<Byte>

  /** `canonical`, `json.loads` and `digest` as the project uses them. */
  datatype Codec = Codec(canonical: Json -> Bytes, parse: Bytes -> Option<Json>,
                         digest: Bytes -> string)
  {
    /** `digest(canonical(value))` */
    function Fingerprint(value: Json): string {
      digest(canonical(value))
    }

    /** The idealised text format and hash: reading back canonical text gives the document, and the
        digest has no collisions. */
    ghost predicate Faithful() {
      && (forall v :: parse(canonical(v)) == Some(v))
      && (forall x, y :: digest(x) == digest(y) ==> x == y)
    }
  }

  lemma FingerprintInjective(codec: Codec, a: Json, b: Json)
    requires codec.Faithful() && codec.Fingerprint(a) == codec.Fingerprint(b)
    ensures a == b
  {
    assert codec.canonical(a) == codec.canonical(b);
    assert codec.parse(codec.canonical(a)) == Some(a);
  }

  /** The files of one experiment directory, and the repository's own sources. */
  datatype FilePath =
    | FreezeFile
    | ProvenanceFile
    | PolicyFile
    | PreparedFile
    | CaseFile(id: string, name: string)
    | PreparedCase(id: string, name: string)
    | ArchivedFile(path: string)
    | SourceFile(name: string)

  type Files = map<FilePath, Bytes>

  /** Every file of the first is still there, with the same bytes. */
  ghost predicate Grows(before: Files, after: Files) {
    forall p | p in before :: p in after && after[p] == before[p]
  }

  /** Save under exclusive creation: an existing file must already hold these bytes. */
  function SaveOnce(files: Files, path: FilePath, data: Bytes): Option<Files> {
    if path !in files then Some(files[path := data])
    else if files[path] == data then Some(files)
    else None
  }

  // ---------- what a sequence of saves amounts to ----------

  /** Files to write, with their bytes. */
  type Plan = set<(FilePath, Bytes)>

  /** Nothing in the way: no planned file exists with other bytes, and none is planned twice with
      different ones. */
  ghost predicate Fits(files: Files, plan: Plan) {
    && (forall w | w in plan && w.0 in files :: files[w.0] == w.1)
    && (forall v, w | v in plan && w in plan && v.0 == w.0 :: v.1 == w.1)
  }

  /** No file changed, and every new one is planned. */
  ghost predicate Within(before: Files, after: Files, plan: Plan) {
    Grows(before, after) && forall p | p in after && p !in before :: (p, after[p]) in plan
  }

  /** All planned files are there, and nothing else happened. */
  ghost predicate Done(before: Files, after: Files, plan: Plan) {
    Within(before, after, plan) && forall w | w in plan :: w.0 in after && after[w.0] == w.1
  }

  lemma WithinMore(before: Files, middle: Files, after: Files, first: Plan, second: Plan)
    requires Within(before, middle, first) && Within(middle, after, second)
    ensures Within(before, after, first + second)
  {
  }

  lemma DoneMore(before: Files, middle: Files, after: Files, first: Plan, second: Plan)
    requires Done(before, middle, first) && Done(middle, after, second)
    ensures Done(before, after, first + second)
  {
    WithinMore(before, middle, after, first, second);
  }

  /** Once the first part of a plan is carried out, the whole fits exactly if the rest does. */
  lemma FitsMore(before: Files, middle: Files, first: Plan, second: Plan)
    requires Done(before, middle, first)
    ensures Fits(before, first + second) <==> Fits(middle, second)
  {
    if Fits(before, first + second) {
      forall w | w in second && w.0 in middle
        ensures middle[w.0] == w.1
      {
        if w.0 !in before { assert (w.0, middle[w.0]) in first + second && w in first + second; }
      }
      assert forall w | w in second :: w in first + second;
    }
    if Fits(middle, second) {
      forall v, w | v in first + second && w in first + second && v.0 == w.0
        ensures v.1 == w.1
      {
        assert v in first ==> middle[v.0] == v.1;
        assert w in first ==> middle[w.0] == w.1;
      }
    }
  }

  /** One more part of a plan: what was done so far is within the whole, and if the whole fits at the
      start then this part fits now. */
  lemma PlanStep(before: Files, middle: Files, after: Files, first: Plan, part: Plan, whole: Plan)
    requires first + part <= whole
    requires Done(before, middle, first) && Within(middle, after, part)
    ensures Within(before, after, whole)
    ensures Done(middle, after, part) ==> Done(before, after, first + part)
    ensures Fits(before, whole) ==> Fits(middle, part)
    ensures first + part == whole ==> (Fits(before, whole) <==> Fits(middle, part))
  {
    FitsMore(before, middle, first, part);
    WithinMore(before, middle, after, first, part);
    if Done(middle, after, part) {
      DoneMore(before, middle, after, first, part);
    }
  }

  /** The directory that `write_once` and its byte-level variants update. */
  class Directory {
    var files: Files

    constructor (files: Files)
      ensures this.files == files
    {
      this.files := files;
    }

    /** `write_once` on bytes: a success leaves exactly these bytes in the file, a refusal leaves
        everything as it was, and no existing file ever changes. */
    method Save(path: FilePath, data: Bytes) returns (ok: bool)
      modifies this
      ensures ok <==> (path in old(files) ==> old(files)[path] == data)
      ensures ok ==> files == old(files)[path := data]
      ensures !ok ==> files == old(files)
      ensures ok <==> Fits(old(files), {(path, data)})
      ensures ok ==> Done(old(files), files, {(path, data)})
      ensures Within(old(files), files, {(path, data)})
    {
      var saved := SaveOnce(files, path, data);
      if saved.None? {
        return false;
      }
      files := saved.value;
      return true;
    }
  }
}
