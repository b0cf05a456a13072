/** Editing a frozen request at whitelisted pointers, and the check that a candidate differs from
    its baseline exactly by the recorded patches. */
module Patches {
  import opened Wrappers
  import opened JsonTree

  /** The digest of the canonical text of a document. */
  type Fingerprint = Json -> string

  ghost predicate Injective(h: Fingerprint) {
    forall x, y :: h(x) == h(y) ==> x == y
  }

  datatype Patch = Patch(path: string, before: string, after: string, producer: string)

  datatype Refusal = Unapproved | Unresolvable | HashMismatch | Undeclared

  function Pointers(patches: seq<Patch>): set<Path> {
    set i | 0 <= i < |patches| :: Segments(patches[i].path)
  }

  // ---------- location ----------

  datatype Key = Name(name: string) | Index(index: nat)

  /** `parent[key]` */
  function Lookup(parent: Json, key: Key): Option<Json> {
    match (parent, key)
    case (Obj(fields), Name(name)) => if name in fields then Some(fields[name]) else None
    case (Arr(items), Index(i)) => if i < |items| then Some(items[i]) else None
    case _ => None
  }

  /** The parent of the pointer exists, and takes the last segment as a key. */
  predicate Locatable(tree: Json, path: Path) {
    path != [] &&
    match At(tree, path[..|path| - 1])
    case None => false
    case Some(Arr(_)) => Position(path[|path| - 1]).Some?
    case Some(_) => true
  }

  lemma AtParent(tree: Json, path: Path)
    requires path != []
    ensures At(tree, path) ==
            match At(tree, path[..|path| - 1])
            case None => None
            case Some(parent) => Child(parent, path[|path| - 1])
    ensures At(tree, path).Some? ==> Locatable(tree, path)
  {
    var front, last := path[..|path| - 1], path[|path| - 1];
    AtConcat(tree, front, [last]);
    assert front + [last] == path;
    if At(tree, front).Some? && Child(At(tree, front).value, last).Some? {
      assert At(Child(At(tree, front).value, last).value, [last][1..]).Some?;
    }
  }

  /** The parent and key a pointer denotes: reading `parent[key]` is reading the document there. */
  method Location(payload: Json, pointer: string) returns (r: Option<(Json, Key)>)
    ensures r.Some? <==> Locatable(payload, Segments(pointer))
    ensures r.Some? ==> var parts := Segments(pointer);
                        At(payload, parts[..|parts| - 1]) == Some(r.value.0)
    ensures At(payload, Segments(pointer)) ==
            if r.Some? then Lookup(r.value.0, r.value.1) else None
  {
    var parts := Segments(pointer);
    var n := |parts| - 1;
    var node := payload;
    AtParent(payload, parts);
    for i := 0 to n
      invariant At(payload, parts[..i]) == Some(node)
    {
      var step := Child(node, parts[i]);
      assert parts[..i + 1][..i] == parts[..i];
      AtParent(payload, parts[..i + 1]);
      if step.None? {
        AtConcat(payload, parts[..i + 1], parts[i + 1..n]);
        assert parts[..i + 1] + parts[i + 1..n] == parts[..n];
        return None;
      }
      node := step.value;
    }
    if node.Arr? {
      match Position(parts[n]) {
        case Some(i) => return Some((node, Index(i)));
        case None => return None;
      }
    }
    return Some((node, Name(parts[n])));
  }

  // ---------- validation ----------

  /** One entry resolves in both documents and carries the digests of what they hold there. */
  ghost predicate EntryHolds(h: Fingerprint, baseline: Json, candidate: Json, patch: Patch) {
    var path := Segments(patch.path);
    && At(baseline, path).Some? && h(At(baseline, path).value) == patch.before
    && At(candidate, path).Some? && h(At(candidate, path).value) == patch.after
  }

  /** Entry `i` is whitelisted, not a repetition, and truthful. */
  ghost predicate EntryAccepted(h: Fingerprint, baseline: Json, candidate: Json,
                                patches: seq<Patch>, allowed: seq<string>, i: nat)
    requires i < |patches|
  {
    && patches[i].path in allowed
    && (forall j | 0 <= j < i :: patches[j].path != patches[i].path)
    && EntryHolds(h, baseline, candidate, patches[i])
  }

  ghost predicate EntriesHold(h: Fingerprint, baseline: Json, candidate: Json,
                              patches: seq<Patch>, allowed: seq<string>) {
    forall i | 0 <= i < |patches| :: EntryAccepted(h, baseline, candidate, patches, allowed, i)
  }

  /** What the check is for: every recorded patch is whitelisted, recorded once and truthful, and
      the candidate looks like the baseline everywhere else. */
  ghost predicate Declared(h: Fingerprint, baseline: Json, candidate: Json,
                           patches: seq<Patch>, allowed: seq<string>) {
    && EntriesHold(h, baseline, candidate, patches, allowed)
    && AgreeOutside(candidate, baseline, Pointers(patches))
  }

  /** One undo step: a location where the documents may differ becomes one where they agree. */
  lemma RestoreStep(restored: Json, baseline: Json, path: Path, rest: set<Path>)
    requires At(restored, path).Some? && At(baseline, path).Some?
    ensures Write(restored, path, At(baseline, path).value).Some?
    ensures AgreeOutside(Write(restored, path, At(baseline, path).value).value, restored, {path})
    ensures AgreeOutside(restored, baseline, {path} + rest) ==>
              AgreeOutside(Write(restored, path, At(baseline, path).value).value, baseline, rest)
  {
    var value := At(baseline, path).value;
    WriteEffect(restored, path, value, []);
    var next := Write(restored, path, value).value;
    forall l: Path | !Covered(l, {path})
      ensures ShapeAt(next, l) == ShapeAt(restored, l)
    {
      assert path in {path};
      WriteEffect(restored, path, value, l);
    }
    if AgreeOutside(restored, baseline, {path} + rest) {
      forall l: Path | !Covered(l, rest)
        ensures ShapeAt(next, l) == ShapeAt(baseline, l)
      {
        WriteEffect(restored, path, value, l);
        if path <= l {
          AtConcat(baseline, path, l[|path|..]);
          assert path + l[|path|..] == l;
        } else {
          assert !Covered(l, {path} + rest);
        }
      }
    }
  }

  /** The undo loop after `i` patches: what still resolves, how far `restored` is from the
      candidate, and how far from the baseline if the candidate is well declared. */
  ghost predicate Undoing(baseline: Json, candidate: Json, restored: Json, patches: seq<Patch>,
                          i: nat)
    requires i <= |patches|
  {
    && (forall q: Path | At(candidate, q).Some? && At(baseline, q).Some? :: At(restored, q).Some?)
    && AgreeOutside(candidate, restored, Pointers(patches[..i]))
    && (AgreeOutside(candidate, baseline, Pointers(patches)) ==>
          AgreeOutside(restored, baseline, Pointers(patches[i..])))
  }

  lemma UndoOne(baseline: Json, candidate: Json, restored: Json, patches: seq<Patch>, i: nat)
    requires i < |patches| && Undoing(baseline, candidate, restored, patches, i)
    requires At(candidate, Segments(patches[i].path)).Some?
    requires At(baseline, Segments(patches[i].path)).Some?
    ensures var path := Segments(patches[i].path);
            var next := Write(restored, path, At(baseline, path).value);
            next.Some? && Undoing(baseline, candidate, next.value, patches, i + 1)
  {
    var path := Segments(patches[i].path);
    PointersStep(patches, i);
    RestoreStep(restored, baseline, path, Pointers(patches[i + 1..]));
    var next := Write(restored, path, At(baseline, path).value).value;
    forall q: Path | At(candidate, q).Some? && At(baseline, q).Some?
      ensures At(next, q).Some?
    {
      TransplantResolves(restored, baseline, path, q);
    }
    AgreeTransitive(candidate, restored, next, Pointers(patches[..i]), {path});
  }

  /** After the last undo step, the baseline is restored exactly if nothing was undeclared. */
  lemma UndoneAll(baseline: Json, candidate: Json, restored: Json, patches: seq<Patch>)
    requires Undoing(baseline, candidate, restored, patches, |patches|)
    ensures restored == baseline <==> AgreeOutside(candidate, baseline, Pointers(patches))
  {
    assert patches[..|patches|] == patches;
    if AgreeOutside(candidate, baseline, Pointers(patches)) {
      AgreeEverywhere(restored, baseline);
    }
  }

  /** The digests of one entry against what the two documents hold at its pointer. */
  method CheckEntry(h: Fingerprint, baseline: Json, candidate: Json, item: Patch)
    returns (r: Result<Json, Refusal>)
    ensures r.Success? <==> EntryHolds(h, baseline, candidate, item)
    ensures r.Success? ==> At(baseline, Segments(item.path)) == Some(r.value)
    ensures r == Failure(Unresolvable) <==>
            At(baseline, Segments(item.path)).None? || At(candidate, Segments(item.path)).None?
    ensures r.Failure? ==> r.error == Unresolvable || r.error == HashMismatch
  {
    var before := Location(baseline, item.path);
    var after := Location(candidate, item.path);
    if before.None? || after.None? {
      return Failure(Unresolvable);
    }
    var original := Lookup(before.value.0, before.value.1);
    var edited := Lookup(after.value.0, after.value.1);
    if original.None? || edited.None? {
      return Failure(Unresolvable);
    }
    if h(original.value) != item.before || h(edited.value) != item.after {
      return Failure(HashMismatch);
    }
    return Success(original.value);
  }

  function PathsBefore(patches: seq<Patch>, i: nat): set<string>
    requires i <= |patches|
  {
    set j | 0 <= j < i :: patches[j].path
  }

  /** One turn of the loop: the entry is judged, and undone if it is accepted. */
  method CheckAndUndo(h: Fingerprint, baseline: Json, candidate: Json, patches: seq<Patch>,
                      allowed: seq<string>, i: nat, seen: set<string>, restored: Json)
    returns (r: Result<Json, Refusal>)
    requires i < |patches| && seen == PathsBefore(patches, i)
    requires Undoing(baseline, candidate, restored, patches, i)
    ensures r.Success? <==> EntryAccepted(h, baseline, candidate, patches, allowed, i)
    ensures r.Success? ==> Undoing(baseline, candidate, r.value, patches, i + 1)
    ensures r == Failure(Unapproved) <==>
            patches[i].path !in allowed || exists j | 0 <= j < i :: patches[j].path == patches[i].path
    ensures r.Failure? ==> r.error == Unapproved || r.error == Unresolvable || r.error == HashMismatch
  {
    var item := patches[i];
    if item.path !in allowed || item.path in seen {
      return Failure(Unapproved);
    }
    var original := CheckEntry(h, baseline, candidate, item);
    if original.Failure? {
      return original;
    }
    UndoOne(baseline, candidate, restored, patches, i);
    return Success(Write(restored, Segments(item.path), original.value).value);
  }

  lemma UndoStart(baseline: Json, candidate: Json, patches: seq<Patch>)
    ensures Undoing(baseline, candidate, candidate, patches, 0) && PathsBefore(patches, 0) == {}
  {
    assert patches[0..] == patches;
  }

  /** The first `i` entries are accepted. */
  ghost predicate AcceptedUpTo(h: Fingerprint, baseline: Json, candidate: Json,
                               patches: seq<Patch>, allowed: seq<string>, i: nat)
    requires i <= |patches|
  {
    forall j | 0 <= j < i :: EntryAccepted(h, baseline, candidate, patches, allowed, j)
  }

  lemma AcceptedMore(h: Fingerprint, baseline: Json, candidate: Json,
                     patches: seq<Patch>, allowed: seq<string>, i: nat)
    requires i < |patches| && AcceptedUpTo(h, baseline, candidate, patches, allowed, i)
    ensures EntryAccepted(h, baseline, candidate, patches, allowed, i) ==>
              AcceptedUpTo(h, baseline, candidate, patches, allowed, i + 1)
    ensures !EntryAccepted(h, baseline, candidate, patches, allowed, i) ==>
              !EntriesHold(h, baseline, candidate, patches, allowed)
    ensures PathsBefore(patches, i + 1) == PathsBefore(patches, i) + {patches[i].path}
  {
  }

  /** What the document holds at the pointer has this digest. */
  ghost predicate Has(h: Fingerprint, tree: Json, pointer: string, hash: string) {
    At(tree, Segments(pointer)).Some? && h(At(tree, Segments(pointer)).value) == hash
  }

  lemma EntriesMean(h: Fingerprint, baseline: Json, candidate: Json, patches: seq<Patch>,
                    allowed: seq<string>)
    ensures EntriesHold(h, baseline, candidate, patches, allowed) <==>
            && (forall i | 0 <= i < |patches| :: Has(h, baseline, patches[i].path, patches[i].before))
            && (forall i | 0 <= i < |patches| :: Has(h, candidate, patches[i].path, patches[i].after))
            && (forall i | 0 <= i < |patches| :: patches[i].path in allowed)
            && (forall i, j | 0 <= i < j < |patches| :: patches[i].path != patches[j].path)
  {
    forall i | 0 <= i < |patches|
      ensures EntryAccepted(h, baseline, candidate, patches, allowed, i) <==>
              && Has(h, baseline, patches[i].path, patches[i].before)
              && Has(h, candidate, patches[i].path, patches[i].after)
              && patches[i].path in allowed
              && forall j | 0 <= j < i :: patches[j].path != patches[i].path
    {
    }
  }

  /** A record is accepted exactly if every digest in it is that of what its document holds there, no
      pointer is repeated or outside the whitelist, and nothing else differs: a wrong digest on either
      side of any entry refuses it. */
  lemma DeclaredMeans(h: Fingerprint, baseline: Json, candidate: Json, patches: seq<Patch>,
                      allowed: seq<string>)
    ensures Declared(h, baseline, candidate, patches, allowed) <==>
            && (forall i | 0 <= i < |patches| :: Has(h, baseline, patches[i].path, patches[i].before))
            && (forall i | 0 <= i < |patches| :: Has(h, candidate, patches[i].path, patches[i].after))
            && (forall i | 0 <= i < |patches| :: patches[i].path in allowed)
            && (forall i, j | 0 <= i < j < |patches| :: patches[i].path != patches[j].path)
            && (forall l: Path | Beside(l, patches) :: ShapeAt(candidate, l) == ShapeAt(baseline, l))
  {
    EntriesMean(h, baseline, candidate, patches, allowed);
    forall l: Path
      ensures Beside(l, patches) <==> !Covered(l, Pointers(patches))
    {
      assert forall i | 0 <= i < |patches| :: Segments(patches[i].path) in Pointers(patches);
    }
  }

  /** The location is neither at nor below where an entry points. */
  ghost predicate Beside(l: Path, patches: seq<Patch>) {
    forall i | 0 <= i < |patches| :: !(Segments(patches[i].path) <= l)
  }

  /** The prepared-candidate check accepts exactly the candidates whose differences from the
      baseline are declared, and names the undeclared difference when only that is wrong. */
  method ValidatePatches(h: Fingerprint, baseline: Json, candidate: Json,
                         patches: seq<Patch>, allowed: seq<string>) returns (r: Outcome<Refusal>)
    ensures r.Pass? <==> Declared(h, baseline, candidate, patches, allowed)
    ensures r == Fail(Undeclared) <==>
            && EntriesHold(h, baseline, candidate, patches, allowed)
            && !AgreeOutside(candidate, baseline, Pointers(patches))
    ensures forall i | 0 <= i < |patches| && r.Pass? :: Has(h, baseline, patches[i].path, patches[i].before)
    ensures forall i | 0 <= i < |patches| && r.Pass? :: Has(h, candidate, patches[i].path, patches[i].after)
    ensures forall i | 0 <= i < |patches| && r.Pass? :: patches[i].path in allowed
    ensures forall i, j | 0 <= i < j < |patches| && r.Pass? :: patches[i].path != patches[j].path
  {
    var restored, seen := candidate, {};
    UndoStart(baseline, candidate, patches);
    for i := 0 to |patches|
      invariant seen == PathsBefore(patches, i)
      invariant AcceptedUpTo(h, baseline, candidate, patches, allowed, i)
      invariant Undoing(baseline, candidate, restored, patches, i)
    {
      var next := CheckAndUndo(h, baseline, candidate, patches, allowed, i, seen, restored);
      AcceptedMore(h, baseline, candidate, patches, allowed, i);
      if next.Failure? {
        return Fail(next.error);
      }
      seen, restored := seen + {patches[i].path}, next.value;
    }
    UndoneAll(baseline, candidate, restored, patches);
    if restored != baseline {
      return Fail(Undeclared);
    }
    DeclaredMeans(h, baseline, candidate, patches, allowed);
    return Pass;
  }

  lemma PointersStep(patches: seq<Patch>, i: nat)
    requires i < |patches|
    ensures Pointers(patches[i..]) == {Segments(patches[i].path)} + Pointers(patches[i + 1..])
    ensures Pointers(patches[..i + 1]) == Pointers(patches[..i]) + {Segments(patches[i].path)}
  {
    var tail, front := patches[i..], patches[..i + 1];
    assert tail[0] == patches[i] && front[i] == patches[i];
    var rest := patches[i + 1..];
    forall p | p in Pointers(rest)
      ensures p in Pointers(tail)
    {
      var j :| 0 <= j < |rest| && p == Segments(rest[j].path);
      assert tail[j + 1] == rest[j];
    }
    forall p | p in Pointers(tail)
      ensures p in {Segments(patches[i].path)} + Pointers(rest)
    {
      var j :| 0 <= j < |tail| && p == Segments(tail[j].path);
      if j > 0 { assert rest[j - 1] == tail[j]; }
    }
    assert forall j | 0 <= j < i :: patches[..i][j] == front[j];
  }

  lemma AgreeTransitive(a: Json, b: Json, c: Json, ps: set<Path>, qs: set<Path>)
    requires AgreeOutside(a, b, ps) && AgreeOutside(c, b, qs)
    ensures AgreeOutside(a, c, ps + qs)
  {
    forall l: Path | !Covered(l, ps + qs)
      ensures ShapeAt(a, l) == ShapeAt(c, l)
    {
      assert forall p | p in ps :: p in ps + qs;
      assert forall p | p in qs :: p in ps + qs;
      assert !Covered(l, ps) && !Covered(l, qs);
    }
  }

  // ---------- a record determines its candidate ----------

  /** The nearest pointer above a location: nothing above it is covered. */
  lemma {:induction false} TopmostPointer(l: Path, pointers: set<Path>) returns (p: Path)
    requires Covered(l, pointers)
    ensures p in pointers && p <= l
    ensures forall q | q <= p && q != p :: !Covered(q, pointers)
    decreases |l|
  {
    p :| p in pointers && p <= l;
    if q :| q <= p && q != p && Covered(q, pointers) {
      p := TopmostPointer(q, pointers);
    }
  }

  /** With a collision-free digest, two candidates accepted against one baseline with one patch
      record are the same document. */
  lemma RecordDeterminesCandidate(h: Fingerprint, baseline: Json, patches: seq<Patch>,
                                  c1: Json, allowed1: seq<string>, c2: Json, allowed2: seq<string>)
    requires Injective(h)
    requires Declared(h, baseline, c1, patches, allowed1)
    requires Declared(h, baseline, c2, patches, allowed2)
    ensures c1 == c2
  {
    var ps := Pointers(patches);
    forall l: Path
      ensures ShapeAt(c1, l) == ShapeAt(c2, l)
    {
      if Covered(l, ps) {
        var p := TopmostPointer(l, ps);
        var i :| 0 <= i < |patches| && p == Segments(patches[i].path);
        assert EntryAccepted(h, baseline, c1, patches, allowed1, i);
        assert EntryAccepted(h, baseline, c2, patches, allowed2, i);
        assert At(c1, p) == At(c2, p);
        AtConcat(c1, p, l[|p|..]);
        AtConcat(c2, p, l[|p|..]);
        assert p + l[|p|..] == l;
      } else {
        assert ShapeAt(c1, l) == ShapeAt(baseline, l) == ShapeAt(c2, l);
      }
    }
    Extensionality(c1, c2);
  }

  /** Baseline and candidate determine the record, up to where its entries point and who made them:
      the digests cannot be chosen. */
  lemma DocumentsDetermineRecord(h: Fingerprint, baseline: Json, candidate: Json,
                                 ps: seq<Patch>, allowed1: seq<string>, qs: seq<Patch>, allowed2: seq<string>)
    requires Declared(h, baseline, candidate, ps, allowed1)
    requires Declared(h, baseline, candidate, qs, allowed2)
    requires |ps| == |qs|
    requires forall i | 0 <= i < |ps| :: ps[i].path == qs[i].path && ps[i].producer == qs[i].producer
    ensures ps == qs
  {
    DeclaredMeans(h, baseline, candidate, ps, allowed1);
    DeclaredMeans(h, baseline, candidate, qs, allowed2);
    forall i | 0 <= i < |ps|
      ensures ps[i] == qs[i]
    {
      assert Has(h, baseline, ps[i].path, ps[i].before) && Has(h, candidate, ps[i].path, ps[i].after);
      assert Has(h, baseline, qs[i].path, qs[i].before) && Has(h, candidate, qs[i].path, qs[i].after);
    }
  }

  // ---------- recording edits ----------

  datatype Edit = Edit(pointer: string, value: Json, producer: string)

  /** The candidate being built and the patches recorded so far. */
  datatype Draft = Draft(candidate: Json, patches: seq<Patch>)

  /** One `replace` call: None where the original raises, in which case nothing has changed. */
  function ReplaceStep(h: Fingerprint, baseline: Json, allowed: seq<string>, d: Draft, e: Edit)
    : Option<Draft>
  {
    var path := Segments(e.pointer);
    if e.pointer !in allowed || !Locatable(d.candidate, path) || !Locatable(baseline, path) then None
    else
      match At(d.candidate, path)
      case None => None
      case Some(current) =>
        if current == e.value then Some(d)
        else
          match At(baseline, path)
          case None => None
          case Some(original) =>
            WriteEffect(d.candidate, path, e.value, []);
            Some(Draft(Write(d.candidate, path, e.value).value,
                       d.patches + [Patch(e.pointer, h(original), h(e.value), e.producer)]))
  }

  /** The first `replace` on a fresh copy, at a pointer that resolves. */
  lemma FirstReplace(h: Fingerprint, baseline: Json, e: Edit, original: Json)
    requires At(baseline, Segments(e.pointer)) == Some(original)
    ensures Write(baseline, Segments(e.pointer), e.value).Some?
    ensures ReplaceStep(h, baseline, [e.pointer], Draft(baseline, []), e) ==
            Some(if original == e.value then Draft(baseline, [])
                 else Draft(Write(baseline, Segments(e.pointer), e.value).value,
                            [Patch(e.pointer, h(original), h(e.value), e.producer)]))
  {
    AtParent(baseline, Segments(e.pointer));
    WriteEffect(baseline, Segments(e.pointer), e.value, []);
    assert e.pointer in [e.pointer];
    assert [] + [Patch(e.pointer, h(original), h(e.value), e.producer)] ==
           [Patch(e.pointer, h(original), h(e.value), e.producer)];
  }

  /** The candidate and patch list that `replace` updates in place. */
  class Workbench {
    const baseline: Json
    const allowed: seq<string>
    var candidate: Json
    var patches: seq<Patch>

    constructor (baseline: Json, allowed: seq<string>)
      ensures this.baseline == baseline && this.allowed == allowed
      ensures candidate == baseline && patches == []
    {
      this.baseline, this.allowed := baseline, allowed;
      candidate, patches := baseline, [];
    }

    function State(): Draft
      reads this
    {
      Draft(candidate, patches)
    }

    method Replace(h: Fingerprint, pointer: string, value: Json, producer: string)
      returns (ok: bool)
      modifies this`candidate, this`patches
      ensures ok == ReplaceStep(h, baseline, allowed, old(State()), Edit(pointer, value, producer)).Some?
      ensures ok ==> ReplaceStep(h, baseline, allowed, old(State()), Edit(pointer, value, producer))
                     == Some(State())
      ensures !ok ==> State() == old(State())
    {
      if pointer !in allowed {
        return false;
      }
      var target := Location(candidate, pointer);
      var source := Location(baseline, pointer);
      if target.None? || source.None? {
        return false;
      }
      var current := Lookup(target.value.0, target.value.1);
      if current.None? {
        return false;
      }
      if current.value != value {
        var original := Lookup(source.value.0, source.value.1);
        if original.None? {
          return false;
        }
        patches := patches + [Patch(pointer, h(original.value), h(value), producer)];
        WriteEffect(candidate, Segments(pointer), value, []);
        candidate := Write(candidate, Segments(pointer), value).value;
      }
      return true;
    }
  }

  /** A draft with the edits that changed it, in order: those a patch was recorded for. */
  datatype Trace = Trace(draft: Draft, log: seq<Edit>)

  function TraceStep(h: Fingerprint, baseline: Json, allowed: seq<string>, t: Trace, e: Edit)
    : Option<Trace>
  {
    match ReplaceStep(h, baseline, allowed, t.draft, e)
    case None => None
    case Some(d) => Some(Trace(d, if |d.patches| > |t.draft.patches| then t.log + [e] else t.log))
  }

  /** A sequence of `replace` calls on a fresh copy of the baseline. */
  function Replay(h: Fingerprint, baseline: Json, allowed: seq<string>, edits: seq<Edit>)
    : Option<Trace>
  {
    if edits == [] then Some(Trace(Draft(baseline, []), []))
    else
      match Replay(h, baseline, allowed, edits[..|edits| - 1])
      case None => None
      case Some(t) => TraceStep(h, baseline, allowed, t, edits[|edits| - 1])
  }

  /** What the recorded patches say: one per effective edit, whitelisted, resolvable in the
      baseline, with the baseline's digest before and the written value's digest after. */
  ghost predicate Recorded(h: Fingerprint, baseline: Json, allowed: seq<string>, t: Trace) {
    && |t.draft.patches| == |t.log|
    && forall i | 0 <= i < |t.log| :: PatchOfEdit(h, baseline, allowed, t.draft.patches[i], t.log[i])
  }

  ghost predicate PatchOfEdit(h: Fingerprint, baseline: Json, allowed: seq<string>, p: Patch, e: Edit) {
    && e.pointer in allowed && At(baseline, Segments(e.pointer)).Some?
    && p == Patch(e.pointer, h(At(baseline, Segments(e.pointer)).value), h(e.value), e.producer)
  }

  lemma StepFrame(h: Fingerprint, baseline: Json, allowed: seq<string>, t: Trace, e: Edit)
    requires AgreeOutside(t.draft.candidate, baseline, Pointers(t.draft.patches))
    requires Recorded(h, baseline, allowed, t)
    requires TraceStep(h, baseline, allowed, t, e).Some?
    ensures var t' := TraceStep(h, baseline, allowed, t, e).value;
            && AgreeOutside(t'.draft.candidate, baseline, Pointers(t'.draft.patches))
            && Recorded(h, baseline, allowed, t')
  {
    var t' := TraceStep(h, baseline, allowed, t, e).value;
    var d, d', path := t.draft, t'.draft, Segments(e.pointer);
    if At(d.candidate, path) != Some(e.value) {
      forall l: Path | !Covered(l, {path})
        ensures ShapeAt(d'.candidate, l) == ShapeAt(d.candidate, l)
      {
        assert path in {path};
        WriteEffect(d.candidate, path, e.value, l);
      }
      AgreeTransitive(d'.candidate, d.candidate, baseline, {path}, Pointers(d.patches));
      PointersStep(d'.patches, |d.patches|);
      assert d'.patches[..|d.patches|] == d.patches;
      assert d'.patches[..|d.patches| + 1] == d'.patches;
      assert {path} + Pointers(d.patches) == Pointers(d'.patches);
    }
  }

  /** Edits never leave an undeclared difference, whatever their pointers. */
  lemma {:induction false} ReplayFrame(h: Fingerprint, baseline: Json, allowed: seq<string>,
                                       edits: seq<Edit>)
    requires Replay(h, baseline, allowed, edits).Some?
    ensures var t := Replay(h, baseline, allowed, edits).value;
            && AgreeOutside(t.draft.candidate, baseline, Pointers(t.draft.patches))
            && Recorded(h, baseline, allowed, t)
  {
    if edits != [] {
      var front, e := edits[..|edits| - 1], edits[|edits| - 1];
      ReplayFrame(h, baseline, allowed, front);
      StepFrame(h, baseline, allowed, Replay(h, baseline, allowed, front).value, e);
    }
  }

  /** The edit is the first at its pointer, and its value is still there. */
  ghost predicate StandsAlone(candidate: Json, log: seq<Edit>, i: nat)
    requires i < |log|
  {
    && FirstUse(log, i)
    && At(candidate, Segments(log[i].pointer)) == Some(log[i].value)
  }

  lemma EntryOfEdit(h: Fingerprint, baseline: Json, allowed: seq<string>, t: Trace, i: nat)
    requires Recorded(h, baseline, allowed, t) && i < |t.log|
    ensures StandsAlone(t.draft.candidate, t.log, i) ==>
              EntryAccepted(h, baseline, t.draft.candidate, t.draft.patches, allowed, i)
    ensures Injective(h) &&
            EntryAccepted(h, baseline, t.draft.candidate, t.draft.patches, allowed, i) ==>
              StandsAlone(t.draft.candidate, t.log, i)
  {
    var d, log := t.draft, t.log;
    forall j | 0 <= j <= i
      ensures d.patches[j].path == log[j].pointer
    {
      assert PatchOfEdit(h, baseline, allowed, d.patches[j], log[j]);
    }
    assert PatchOfEdit(h, baseline, allowed, d.patches[i], log[i]);
    if Injective(h) && EntryAccepted(h, baseline, d.candidate, d.patches, allowed, i) {
      var found := At(d.candidate, Segments(log[i].pointer)).value;
      assert h(found) == h(log[i].value);
      forall j | 0 <= j < i
        ensures log[j].pointer != log[i].pointer
      {
        assert d.patches[j].path != d.patches[i].path;
      }
    }
  }

  /** When any sequence of accepted `replace` calls leaves a candidate that validates: exactly when
      no pointer was changed twice and every written value is still in place at the end. */
  lemma ReplayValidates(h: Fingerprint, baseline: Json, allowed: seq<string>, edits: seq<Edit>)
    requires Injective(h)
    requires Replay(h, baseline, allowed, edits).Some?
    ensures var t := Replay(h, baseline, allowed, edits).value;
            Declared(h, baseline, t.draft.candidate, t.draft.patches, allowed) <==>
            forall i | 0 <= i < |t.log| :: StandsAlone(t.draft.candidate, t.log, i)
  {
    ReplayFrame(h, baseline, allowed, edits);
    RecordValidates(h, baseline, allowed, Replay(h, baseline, allowed, edits).value);
  }

  lemma RecordValidates(h: Fingerprint, baseline: Json, allowed: seq<string>, t: Trace)
    requires Recorded(h, baseline, allowed, t)
    ensures (forall i | 0 <= i < |t.log| :: StandsAlone(t.draft.candidate, t.log, i)) ==>
              EntriesHold(h, baseline, t.draft.candidate, t.draft.patches, allowed)
    ensures Injective(h) && EntriesHold(h, baseline, t.draft.candidate, t.draft.patches, allowed) ==>
              forall i | 0 <= i < |t.log| :: StandsAlone(t.draft.candidate, t.log, i)
  {
    forall i | 0 <= i < |t.log|
      ensures StandsAlone(t.draft.candidate, t.log, i) ==>
                EntryAccepted(h, baseline, t.draft.candidate, t.draft.patches, allowed, i)
      ensures Injective(h) &&
              EntryAccepted(h, baseline, t.draft.candidate, t.draft.patches, allowed, i) ==>
                StandsAlone(t.draft.candidate, t.log, i)
    {
      EntryOfEdit(h, baseline, allowed, t, i);
    }
  }

  ghost predicate Unnested(edits: seq<Edit>) {
    forall i, j | 0 <= i < |edits| && 0 <= j < |edits| && i != j ::
      !(Segments(edits[i].pointer) <= Segments(edits[j].pointer))
  }

  ghost predicate Applicable(baseline: Json, allowed: seq<string>, edits: seq<Edit>) {
    forall e | e in edits :: e.pointer in allowed && At(baseline, Segments(e.pointer)).Some?
  }

  ghost predicate Holds(candidate: Json, edits: seq<Edit>) {
    forall e | e in edits :: At(candidate, Segments(e.pointer)) == Some(e.value)
  }

  /** The location is neither at, above nor below a pointer of the edits. */
  ghost predicate Untouched(q: Path, edits: seq<Edit>) {
    forall e | e in edits :: !(Segments(e.pointer) <= q) && !(q <= Segments(e.pointer))
  }

  /** Edits at pointers none of which is at or above another: they go through exactly when every
      pointer is whitelisted and resolves in the baseline, and the result then validates and holds
      every edited value. */
  lemma UnnestedEditsValidate(h: Fingerprint, baseline: Json, allowed: seq<string>,
                              edits: seq<Edit>)
    requires Unnested(edits)
    ensures Replay(h, baseline, allowed, edits).Some? <==> Applicable(baseline, allowed, edits)
    ensures Replay(h, baseline, allowed, edits).Some? ==>
            var t := Replay(h, baseline, allowed, edits).value;
            && Declared(h, baseline, t.draft.candidate, t.draft.patches, allowed)
            && Holds(t.draft.candidate, edits)
  {
    UnnestedReplay(h, baseline, allowed, edits);
    if Replay(h, baseline, allowed, edits).Some? {
      ReplayFrame(h, baseline, allowed, edits);
      LogStandsAlone(Replay(h, baseline, allowed, edits).value, edits);
      RecordValidates(h, baseline, allowed, Replay(h, baseline, allowed, edits).value);
    }
  }

  ghost predicate FirstUse(log: seq<Edit>, i: nat)
    requires i < |log|
  {
    forall j | 0 <= j < i :: log[j].pointer != log[i].pointer
  }

  /** The state of a replay of unnested edits: all values are in place, the log is drawn from the
      edits without repetition, and everything unrelated is as in the baseline. */
  ghost predicate UnnestedSoFar(baseline: Json, t: Trace, edits: seq<Edit>) {
    && Holds(t.draft.candidate, edits)
    && (forall q: Path | Untouched(q, edits) :: At(t.draft.candidate, q) == At(baseline, q))
    && (forall i | 0 <= i < |t.log| :: t.log[i] in edits)
    && (forall i | 0 <= i < |t.log| :: FirstUse(t.log, i))
  }

  lemma LogStandsAlone(t: Trace, edits: seq<Edit>)
    requires Holds(t.draft.candidate, edits)
    requires forall i | 0 <= i < |t.log| :: t.log[i] in edits
    requires forall i | 0 <= i < |t.log| :: FirstUse(t.log, i)
    ensures forall i | 0 <= i < |t.log| :: StandsAlone(t.draft.candidate, t.log, i)
  {
  }

  lemma {:induction false} UnnestedReplay(h: Fingerprint, baseline: Json, allowed: seq<string>,
                                          edits: seq<Edit>)
    requires Unnested(edits)
    ensures Replay(h, baseline, allowed, edits).Some? <==> Applicable(baseline, allowed, edits)
    ensures Replay(h, baseline, allowed, edits).Some? ==>
            UnnestedSoFar(baseline, Replay(h, baseline, allowed, edits).value, edits)
  {
    if edits != [] {
      var front, e := edits[..|edits| - 1], edits[|edits| - 1];
      assert edits == front + [e];
      LastUntouched(front, e);
      UnnestedReplay(h, baseline, allowed, front);
      UnnestedExtend(h, baseline, allowed, front, e);
    }
  }

  lemma UnnestedExtend(h: Fingerprint, baseline: Json, allowed: seq<string>, front: seq<Edit>, e: Edit)
    requires Untouched(Segments(e.pointer), front)
    requires Replay(h, baseline, allowed, front).Some? <==> Applicable(baseline, allowed, front)
    requires Replay(h, baseline, allowed, front).Some? ==>
               UnnestedSoFar(baseline, Replay(h, baseline, allowed, front).value, front)
    ensures var r := Replay(h, baseline, allowed, front + [e]);
            && (r.Some? <==> Applicable(baseline, allowed, front + [e]))
            && (r.Some? ==> UnnestedSoFar(baseline, r.value, front + [e]))
  {
    assert (front + [e])[..|front|] == front;
    ApplicableStep(baseline, allowed, front, e);
    if Replay(h, baseline, allowed, front).Some? {
      var t := Replay(h, baseline, allowed, front).value;
      StepAccepted(h, baseline, allowed, t, e);
      if TraceStep(h, baseline, allowed, t, e).Some? {
        UnnestedStep(h, baseline, allowed, t, front, e);
      }
    }
  }

  lemma ApplicableStep(baseline: Json, allowed: seq<string>, front: seq<Edit>, e: Edit)
    ensures Applicable(baseline, allowed, front + [e]) <==>
            && Applicable(baseline, allowed, front)
            && e.pointer in allowed && At(baseline, Segments(e.pointer)).Some?
  {
    assert forall x :: x in front + [e] <==> x in front || x == e;
  }

  lemma LastUntouched(front: seq<Edit>, e: Edit)
    requires Unnested(front + [e])
    ensures Unnested(front) && Untouched(Segments(e.pointer), front)
  {
    var edits := front + [e];
    forall i, j | 0 <= i < |front| && 0 <= j < |front| && i != j
      ensures !(Segments(front[i].pointer) <= Segments(front[j].pointer))
    {
      assert edits[i] == front[i] && edits[j] == front[j];
    }
    forall x | x in front
      ensures !(Segments(x.pointer) <= Segments(e.pointer))
      ensures !(Segments(e.pointer) <= Segments(x.pointer))
    {
      var k :| 0 <= k < |front| && front[k] == x;
      assert edits[k] == x && edits[|front|] == e;
    }
  }

  /** What one accepted `replace` does: the value is in place, unrelated locations keep theirs. */
  lemma StepEffect(h: Fingerprint, baseline: Json, allowed: seq<string>, t: Trace, e: Edit)
    requires TraceStep(h, baseline, allowed, t, e).Some?
    ensures var t' := TraceStep(h, baseline, allowed, t, e).value;
            && At(t'.draft.candidate, Segments(e.pointer)) == Some(e.value)
            && (t'.log == t.log || t'.log == t.log + [e])
            && forall q: Path | Untouched(q, [e]) :: At(t'.draft.candidate, q) == At(t.draft.candidate, q)
  {
    var path, candidate := Segments(e.pointer), t.draft.candidate;
    var next := TraceStep(h, baseline, allowed, t, e).value.draft.candidate;
    if At(candidate, path) != Some(e.value) {
      WriteEffect(candidate, path, e.value, path);
      forall q: Path | Untouched(q, [e])
        ensures At(next, q) == At(candidate, q)
      {
        assert e in [e];
        WriteEffect(candidate, path, e.value, q);
      }
    }
  }

  /** Whether `replace` accepts an edit beside all earlier ones is decided by the baseline alone. */
  lemma StepAccepted(h: Fingerprint, baseline: Json, allowed: seq<string>, t: Trace, e: Edit)
    requires At(t.draft.candidate, Segments(e.pointer)) == At(baseline, Segments(e.pointer))
    ensures TraceStep(h, baseline, allowed, t, e).Some? <==>
            e.pointer in allowed && At(baseline, Segments(e.pointer)).Some?
  {
    AtParent(baseline, Segments(e.pointer));
    AtParent(t.draft.candidate, Segments(e.pointer));
  }

  lemma UnnestedStep(h: Fingerprint, baseline: Json, allowed: seq<string>, t: Trace,
                     front: seq<Edit>, e: Edit)
    requires UnnestedSoFar(baseline, t, front)
    requires Untouched(Segments(e.pointer), front)
    ensures var next := TraceStep(h, baseline, allowed, t, e);
            next.Some? ==> UnnestedSoFar(baseline, next.value, front + [e])
  {
    if TraceStep(h, baseline, allowed, t, e).None? {
      return;
    }
    var t' := TraceStep(h, baseline, allowed, t, e).value;
    var candidate, next := t.draft.candidate, t'.draft.candidate;
    StepEffect(h, baseline, allowed, t, e);
    forall x | x in front + [e]
      ensures At(next, Segments(x.pointer)) == Some(x.value)
    {
      if x in front {
        assert Untouched(Segments(x.pointer), [e]);
      }
    }
    forall q: Path | Untouched(q, front + [e])
      ensures At(next, q) == At(baseline, q)
    {
      UntouchedByFewer(q, front, e);
    }
    LogStep(t, t', front, e);
  }

  /** The patch of an edit that differs from the baseline: where, what was there, what is there now, and
      who made it. */
  function PatchFor(h: Fingerprint, baseline: Json, e: Edit): seq<Patch> {
    match At(baseline, Segments(e.pointer))
    case Some(was) => if was == e.value then [] else [Patch(e.pointer, h(was), h(e.value), e.producer)]
    case None => []
  }

  function PatchesOf(h: Fingerprint, baseline: Json, edits: seq<Edit>): seq<Patch> {
    if edits == [] then []
    else PatchesOf(h, baseline, edits[..|edits| - 1]) + PatchFor(h, baseline, edits[|edits| - 1])
  }

  lemma StepPatches(h: Fingerprint, baseline: Json, allowed: seq<string>, t: Trace, e: Edit)
    requires At(t.draft.candidate, Segments(e.pointer)) == At(baseline, Segments(e.pointer))
    ensures var next := TraceStep(h, baseline, allowed, t, e);
            next.Some? ==> next.value.draft.patches == t.draft.patches + PatchFor(h, baseline, e)
  {
  }

  /** Unnested edits are recorded one by one against the baseline. */
  lemma {:induction false} UnnestedPatches(h: Fingerprint, baseline: Json, allowed: seq<string>, edits: seq<Edit>)
    requires Unnested(edits) && Replay(h, baseline, allowed, edits).Some?
    ensures Replay(h, baseline, allowed, edits).value.draft.patches == PatchesOf(h, baseline, edits)
  {
    if edits != [] {
      var front, e := edits[..|edits| - 1], edits[|edits| - 1];
      assert edits == front + [e];
      LastUntouched(front, e);
      UnnestedPatches(h, baseline, allowed, front);
      UnnestedReplay(h, baseline, allowed, front);
      StepPatches(h, baseline, allowed, Replay(h, baseline, allowed, front).value, e);
    }
  }

  lemma UntouchedByFewer(q: Path, front: seq<Edit>, e: Edit)
    requires Untouched(q, front + [e])
    ensures Untouched(q, front) && Untouched(q, [e])
  {
    assert forall x | x in front :: x in front + [e];
    assert e in front + [e];
  }

  lemma LogStep(t: Trace, t': Trace, front: seq<Edit>, e: Edit)
    requires forall i | 0 <= i < |t.log| :: t.log[i] in front
    requires forall i | 0 <= i < |t.log| :: FirstUse(t.log, i)
    requires Untouched(Segments(e.pointer), front)
    requires t'.log == t.log || t'.log == t.log + [e]
    ensures forall i | 0 <= i < |t'.log| :: t'.log[i] in front + [e]
    ensures forall i | 0 <= i < |t'.log| :: FirstUse(t'.log, i)
  {
    forall i | 0 <= i < |t'.log|
      ensures t'.log[i] in front + [e]
      ensures FirstUse(t'.log, i)
    {
      if i < |t.log| {
        assert t'.log[i] == t.log[i] && FirstUse(t.log, i);
      }
    }
  }

  /** Without that restriction the law fails: when a second approved edit replaces a container
      above the first one and drops its value, both calls go through and the check then refuses
      the candidate they leave. */
  lemma OverwrittenEditRefused(h: Fingerprint, baseline: Json, allowed: seq<string>, e1: Edit, e2: Edit)
    requires Injective(h)
    requires e1.pointer in allowed && e2.pointer in allowed
    requires Segments(e2.pointer) <= Segments(e1.pointer)
    requires At(baseline, Segments(e1.pointer)).Some?
    requires At(baseline, Segments(e1.pointer)) != Some(e1.value)
    requires At(e2.value, Segments(e1.pointer)[|Segments(e2.pointer)|..]) != Some(e1.value)
    ensures Replay(h, baseline, allowed, [e1, e2]).Some?
    ensures var d := Replay(h, baseline, allowed, [e1, e2]).value.draft;
            !Declared(h, baseline, d.candidate, d.patches, allowed)
  {
    var t := OverwrittenReplay(h, baseline, allowed, e1, e2);
    ReplayValidates(h, baseline, allowed, [e1, e2]);
    assert !StandsAlone(t.draft.candidate, t.log, 0);
  }

  /** Both edits go through, and the first one's value is gone. */
  lemma OverwrittenReplay(h: Fingerprint, baseline: Json, allowed: seq<string>, e1: Edit, e2: Edit)
    returns (t: Trace)
    requires e1.pointer in allowed && e2.pointer in allowed
    requires Segments(e2.pointer) <= Segments(e1.pointer)
    requires At(baseline, Segments(e1.pointer)).Some?
    requires At(baseline, Segments(e1.pointer)) != Some(e1.value)
    requires At(e2.value, Segments(e1.pointer)[|Segments(e2.pointer)|..]) != Some(e1.value)
    ensures Replay(h, baseline, allowed, [e1, e2]) == Some(t) && t.log == [e1, e2]
    ensures At(t.draft.candidate, Segments(e1.pointer)) != Some(e1.value)
  {
    var p1, p2 := Segments(e1.pointer), Segments(e2.pointer);
    var t0 := Trace(Draft(baseline, []), []);
    AtParent(baseline, p1);
    var t1 := TraceStep(h, baseline, allowed, t0, e1).value;
    AboveResolves(baseline, p2, p1);
    WriteEffect(baseline, p1, e1.value, p1);
    AboveResolves(t1.draft.candidate, p2, p1);
    AtParent(baseline, p2);
    AtParent(t1.draft.candidate, p2);
    AtConcat(t1.draft.candidate, p2, p1[|p2|..]);
    assert p2 + p1[|p2|..] == p1;
    assert At(t1.draft.candidate, p2) != Some(e2.value);
    t := TraceStep(h, baseline, allowed, t1, e2).value;
    WriteEffect(t1.draft.candidate, p2, e2.value, p1);
    ReplayOfTwo(h, baseline, allowed, e1, e2);
  }

  lemma ReplayOfTwo(h: Fingerprint, baseline: Json, allowed: seq<string>, e1: Edit, e2: Edit)
    requires TraceStep(h, baseline, allowed, Trace(Draft(baseline, []), []), e1).Some?
    ensures Replay(h, baseline, allowed, [e1, e2]) ==
            TraceStep(h, baseline, allowed,
                      TraceStep(h, baseline, allowed, Trace(Draft(baseline, []), []), e1).value, e2)
  {
    assert [e1, e2][..1] == [e1] && [e1][..0] == [];
    assert Replay(h, baseline, allowed, []) == Some(Trace(Draft(baseline, []), []));
    assert Replay(h, baseline, allowed, [e1]) ==
           TraceStep(h, baseline, allowed, Trace(Draft(baseline, []), []), e1);
  }

  lemma AboveResolves(tree: Json, p: Path, q: Path)
    requires p <= q && At(tree, q).Some?
    ensures At(tree, p).Some?
  {
    AtConcat(tree, p, q[|p|..]);
    assert p + q[|p|..] == q;
  }

  lemma NestedExample() returns (baseline: Json, e1: Edit, e2: Edit)
    ensures Segments(e1.pointer) == ["a", "b"] && Segments(e2.pointer) == ["a"]
    ensures At(baseline, ["a", "b"]).Some? && At(baseline, ["a", "b"]) != Some(e1.value)
    ensures At(e2.value, ["b"]).Some? && At(e2.value, ["b"]) != Some(e1.value)
  {
    var x, y := Text("x"), Text("y");
    var inner := Obj(map["b" := x]);
    baseline := Obj(map["a" := inner]);
    e1 := Edit(Pointer(["a", "b"]), y, "");
    e2 := Edit(Pointer(["a"]), inner, "");
    SegmentsOfPointer(["a", "b"]);
    SegmentsOfPointer(["a"]);
    assert ["a", "b"][1..] == ["b"] && ["b"][1..] == [];
    assert At(inner, ["b"]) == Some(x);
  }

  /** A concrete pair of that kind: `/a/b`, then `/a`. */
  lemma NestedEditsRefused(h: Fingerprint)
    returns (baseline: Json, allowed: seq<string>, e1: Edit, e2: Edit)
    requires Injective(h)
    ensures Segments(e1.pointer) == ["a", "b"] && Segments(e2.pointer) == ["a"]
    ensures Replay(h, baseline, allowed, [e1, e2]).Some?
    ensures var d := Replay(h, baseline, allowed, [e1, e2]).value.draft;
            !Declared(h, baseline, d.candidate, d.patches, allowed)
  {
    baseline, e1, e2 := NestedExample();
    allowed := [e1.pointer, e2.pointer];
    assert ["a", "b"][1..] == ["b"];
    OverwrittenEditRefused(h, baseline, allowed, e1, e2);
  }
}
