/** The bounded projection of a JSON value: limited in depth and width whatever the input. */
module Bounded {
  import JsonTree

  /** JSON with ordered objects, as Python keeps them. */
  datatype Value =
    | Null
    | Flag(b: bool)
    | Number(literal: string)
    | Text(text: string)
    | List(items: seq<Value>)
    | Dict(fields: seq<(string, Value)>)

  type Redaction = string -> string

  const OMITTED_KEYS := {"published_tools", "added", "removed", "tool_contract_sha256", "fields_used",
                         "host_task_evidence", "approval_token", "smart_fields_applied", "raw",
                         "schema"}
  const MARKER := "_nested_data_omitted"
  const WIDTH := 24
  const HEAD := 3

  predicate Nested(v: Value) {
    v.List? || v.Dict?
  }

  // ---------- the projection ----------

  function Shortened(s: string): string {
    if |s| <= 650 then s else s[..400] + " [text omitted] " + s[|s| - 250..]
  }

  /** A value that is neither a list nor an object. */
  function Leaf(redact: Redaction, v: Value): Value {
    if v.Text? then Text(Shortened(redact(v.text))) else v
  }

  function Scalars(fields: seq<(string, Value)>): seq<(string, Value)> {
    if fields == [] then []
    else
      var n := |fields| - 1;
      Scalars(fields[..n]) + if Nested(fields[n].1) then [] else [fields[n]]
  }

  predicate AnyNested(fields: seq<(string, Value)>) {
    exists f | f in fields :: Nested(f.1)
  }

  /** `{**fields, key: value}`: an existing key keeps its place. */
  function Put(fields: seq<(string, Value)>, key: string, value: Value): seq<(string, Value)> {
    if fields == [] then [(key, value)]
    else if fields[0].0 == key then [(key, value)] + fields[1..]
    else [fields[0]] + Put(fields[1..], key, value)
  }

  /** What is left of an object below the depth limit: its scalars, and whether there was more. */
  function Flat(fields: seq<(string, Value)>): seq<(string, Value)> {
    Put(Scalars(fields), MARKER, Flag(AnyNested(fields)))
  }

  function Cut<T>(s: seq<T>, n: nat): seq<T> {
    if |s| <= n then s else s[..n]
  }

  function Leaves(redact: Redaction, fields: seq<(string, Value)>): seq<(string, Value)> {
    if fields == [] then []
    else
      var n := |fields| - 1;
      Leaves(redact, fields[..n]) +
      if fields[n].0 in OMITTED_KEYS then [] else [(fields[n].0, Leaf(redact, fields[n].1))]
  }

  /** `{'omitted_items': n}` */
  function Rest(n: nat): Value {
    Dict([("omitted_items", Number(JsonTree.Decimal(n)))])
  }

  /** Numbers, flags and null stay as they are. */
  function Project(redact: Redaction, v: Value, depth: nat): (r: Value)
    ensures v.Null? || v.Flag? || v.Number? ==> r == v
    decreases v, 1, 0
  {
    match v
    case List(items) =>
      if depth > 3 then Text("[nested data omitted]")
      else
        var shown := if |items| <= HEAD then |items| else HEAD;
        List(Items(redact, v, shown, depth + 1) +
             if |items| > HEAD then [Rest(|items| - HEAD)] else [])
    case Dict(fields) =>
      if depth > 3 then Dict(Leaves(redact, Cut(Flat(fields), WIDTH)))
      else Dict(Fields(redact, v, if |fields| <= WIDTH then |fields| else WIDTH, depth + 1))
    case _ => Leaf(redact, v)
  }

  /** The first `n` elements of a list, projected. */
  function Items(redact: Redaction, v: Value, n: nat, depth: nat): (r: seq<Value>)
    requires v.List? && n <= |v.items|
    ensures |r| == n
    decreases v, 0, n
  {
    if n == 0 then [] else Items(redact, v, n - 1, depth) + [Project(redact, v.items[n - 1], depth)]
  }

  /** The first `n` fields of an object, projected, without the keys that are always left out. */
  function Fields(redact: Redaction, v: Value, n: nat, depth: nat): (r: seq<(string, Value)>)
    requires v.Dict? && n <= |v.fields|
    ensures |r| <= n
    decreases v, 0, n
  {
    if n == 0 then []
    else
      Fields(redact, v, n - 1, depth) +
      if v.fields[n - 1].0 in OMITTED_KEYS then []
      else [(v.fields[n - 1].0, Project(redact, v.fields[n - 1].1, depth))]
  }

  // ---------- size ----------

  /** The number of nodes of a value. */
  function Size(v: Value): nat
    decreases v, 1, 0
  {
    match v
    case List(items) => 1 + ItemsSize(v, |items|)
    case Dict(fields) => 1 + FieldsSize(v, |fields|)
    case _ => 1
  }

  function ItemsSize(v: Value, n: nat): nat
    requires v.List? && n <= |v.items|
    decreases v, 0, n
  {
    if n == 0 then 0 else ItemsSize(v, n - 1) + Size(v.items[n - 1])
  }

  function FieldsSize(v: Value, n: nat): nat
    requires v.Dict? && n <= |v.fields|
    decreases v, 0, n
  {
    if n == 0 then 0 else FieldsSize(v, n - 1) + Size(v.fields[n - 1].1)
  }

  /** Narrow: at most four elements in a list, 24 fields in an object, 666 characters in a text. */
  predicate Narrow(v: Value) {
    match v
    case Text(s) => |s| <= 666
    case List(items) => |items| <= 4 && forall i | 0 <= i < |items| :: Narrow(items[i])
    case Dict(fields) => |fields| <= WIDTH && forall i | 0 <= i < |fields| :: Narrow(fields[i].1)
    case _ => true
  }

  /** The largest size at a depth: each level has at most 24 children. */
  function Cap(depth: nat): nat
    decreases 4 - depth
  {
    if depth >= 4 then 1 + WIDTH else 1 + WIDTH * Cap(depth + 1)
  }

  lemma CapValues()
    ensures Cap(0) == 8308825
  {
    assert Cap(4) == 25;
    assert Cap(3) == 1 + 24 * 25 == 601;
    assert Cap(2) == 1 + 24 * 601 == 14425;
    assert Cap(1) == 1 + 24 * 14425 == 346201;
    assert Cap(0) == 1 + 24 * 346201;
  }

  ghost predicate Fits(v: Value, depth: nat) {
    Size(v) <= Cap(depth) && Narrow(v)
  }

  lemma LeafFits(redact: Redaction, v: Value, depth: nat)
    requires !Nested(v)
    ensures Size(Leaf(redact, v)) == 1 && Narrow(Leaf(redact, v)) && !Nested(Leaf(redact, v))
  {
    assert |" [text omitted] "| == 16;
  }

  lemma {:induction false} FlatLeaves(redact: Redaction, fields: seq<(string, Value)>)
    requires forall f | f in fields :: !Nested(f.1)
    ensures |Leaves(redact, fields)| <= |fields|
    ensures forall f | f in Leaves(redact, fields) :: !Nested(f.1) && Narrow(f.1)
  {
    if fields != [] {
      var n := |fields| - 1;
      assert forall f | f in fields[..n] :: f in fields;
      assert fields[n] in fields;
      FlatLeaves(redact, fields[..n]);
      LeafFits(redact, fields[n].1, 0);
    }
  }

  lemma {:induction false} ScalarsFlat(fields: seq<(string, Value)>)
    ensures forall f | f in Scalars(fields) :: !Nested(f.1)
  {
    if fields != [] {
      ScalarsFlat(fields[..|fields| - 1]);
    }
  }

  lemma {:induction false} PutFlat(fields: seq<(string, Value)>, key: string, value: Value)
    requires !Nested(value) && forall f | f in fields :: !Nested(f.1)
    ensures forall f | f in Put(fields, key, value) :: !Nested(f.1)
  {
    if fields != [] {
      assert forall f | f in fields[1..] :: f in fields;
      assert fields[0] in fields;
      PutFlat(fields[1..], key, value);
    }
  }

  lemma {:induction false} LeafFieldsSize(v: Value, n: nat)
    requires v.Dict? && n <= |v.fields|
    requires forall f | f in v.fields :: !Nested(f.1)
    ensures FieldsSize(v, n) == n
  {
    if n > 0 {
      LeafFieldsSize(v, n - 1);
      assert v.fields[n - 1] in v.fields;
    }
  }

  /** Below the depth limit an object keeps scalars only. */
  lemma FlatFits(redact: Redaction, fields: seq<(string, Value)>)
    ensures var r := Dict(Leaves(redact, Cut(Flat(fields), WIDTH)));
            Size(r) <= 1 + WIDTH && Narrow(r)
  {
    ScalarsFlat(fields);
    PutFlat(Scalars(fields), MARKER, Flag(AnyNested(fields)));
    var shown := Cut(Flat(fields), WIDTH);
    assert forall f | f in shown :: f in Flat(fields);
    FlatLeaves(redact, shown);
    LeafFieldsSize(Dict(Leaves(redact, shown)), |Leaves(redact, shown)|);
  }

  /** The size of a value is that of its parts. */
  lemma {:induction false} ItemsSizeOf(items: seq<Value>, more: seq<Value>, n: nat)
    requires n <= |items|
    ensures ItemsSize(List(items + more), n) == ItemsSize(List(items), n)
  {
    if n > 0 {
      ItemsSizeOf(items, more, n - 1);
    }
  }

  lemma {:induction false} FieldsSizeOf(fields: seq<(string, Value)>, more: seq<(string, Value)>, n: nat)
    requires n <= |fields|
    ensures FieldsSize(Dict(fields + more), n) == FieldsSize(Dict(fields), n)
  {
    if n > 0 {
      FieldsSizeOf(fields, more, n - 1);
    }
  }

  lemma {:induction false} ItemsFit(redact: Redaction, v: Value, n: nat, depth: nat)
    requires v.List? && n <= |v.items|
    ensures var r := Items(redact, v, n, depth);
            && ItemsSize(List(r), |r|) <= n * Cap(depth)
            && forall i | 0 <= i < |r| :: Narrow(r[i])
    decreases v, 0, n
  {
    if n > 0 {
      ItemsFit(redact, v, n - 1, depth);
      ProjectFits(redact, v.items[n - 1], depth);
      var front, last := Items(redact, v, n - 1, depth), Project(redact, v.items[n - 1], depth);
      ItemsSizeOf(front, [last], |front|);
      assert ItemsSize(List(front + [last]), n) == ItemsSize(List(front), n - 1) + Size(last);
      assert n * Cap(depth) == (n - 1) * Cap(depth) + Cap(depth);
    }
  }

  lemma {:induction false} FieldsFit(redact: Redaction, v: Value, n: nat, depth: nat)
    requires v.Dict? && n <= |v.fields|
    ensures var r := Fields(redact, v, n, depth);
            && FieldsSize(Dict(r), |r|) <= n * Cap(depth)
            && forall i | 0 <= i < |r| :: Narrow(r[i].1)
    decreases v, 0, n
  {
    if n > 0 {
      FieldsFit(redact, v, n - 1, depth);
      var front, f := Fields(redact, v, n - 1, depth), v.fields[n - 1];
      assert n * Cap(depth) == (n - 1) * Cap(depth) + Cap(depth);
      if f.0 !in OMITTED_KEYS {
        ProjectFits(redact, f.1, depth);
        var last := (f.0, Project(redact, f.1, depth));
        FieldsSizeOf(front, [last], |front|);
        assert FieldsSize(Dict(front + [last]), |front| + 1) == FieldsSize(Dict(front), |front|) + Size(last.1);
      } else {
        assert Fields(redact, v, n, depth) == front;
      }
    }
  }

  function ShownItems(v: Value): nat
    requires v.List?
    ensures ShownItems(v) <= |v.items|
  {
    if |v.items| <= HEAD then |v.items| else HEAD
  }

  function ShownFields(v: Value): nat
    requires v.Dict?
    ensures ShownFields(v) <= |v.fields|
  {
    if |v.fields| <= WIDTH then |v.fields| else WIDTH
  }

  /** The projection of any value at any depth stays within the size and width limits. */
  lemma {:induction false} ProjectFits(redact: Redaction, v: Value, depth: nat)
    ensures Fits(Project(redact, v, depth), depth)
    decreases v, 1, 0
  {
    if !Nested(v) {
      LeafFits(redact, v, depth);
    } else if depth > 3 {
      DeepFits(redact, v, depth);
    } else if v.List? {
      ItemsFit(redact, v, ShownItems(v), depth + 1);
      ShownListFits(redact, v, depth);
    } else {
      FieldsFit(redact, v, ShownFields(v), depth + 1);
      ShownDictFits(redact, v, depth);
    }
  }

  lemma ShownListFits(redact: Redaction, v: Value, depth: nat)
    requires v.List? && depth <= 3
    requires var r := Items(redact, v, ShownItems(v), depth + 1);
             && ItemsSize(List(r), |r|) <= ShownItems(v) * Cap(depth + 1)
             && forall i | 0 <= i < |r| :: Narrow(r[i])
    ensures Fits(Project(redact, v, depth), depth)
  {
    ListFits(Items(redact, v, ShownItems(v), depth + 1), |v.items|, Cap(depth + 1));
  }

  lemma ShownDictFits(redact: Redaction, v: Value, depth: nat)
    requires v.Dict? && depth <= 3
    requires var r := Fields(redact, v, ShownFields(v), depth + 1);
             && FieldsSize(Dict(r), |r|) <= ShownFields(v) * Cap(depth + 1)
             && forall i | 0 <= i < |r| :: Narrow(r[i].1)
    ensures Fits(Project(redact, v, depth), depth)
  {
    TimesGrows(ShownFields(v), WIDTH, Cap(depth + 1));
    DictFits(Fields(redact, v, ShownFields(v), depth + 1), WIDTH * Cap(depth + 1));
  }

  lemma TimesGrows(n: nat, m: nat, k: nat)
    requires n <= m
    ensures n * k <= m * k
  {
  }

  lemma DictFits(fields: seq<(string, Value)>, limit: nat)
    requires |fields| <= WIDTH && FieldsSize(Dict(fields), |fields|) <= limit
    requires forall i | 0 <= i < |fields| :: Narrow(fields[i].1)
    ensures Size(Dict(fields)) <= 1 + limit && Narrow(Dict(fields))
  {
  }

  lemma ListFits(shown: seq<Value>, length: nat, cap: nat)
    requires |shown| == if length <= HEAD then length else HEAD
    requires cap >= 1 && ItemsSize(List(shown), |shown|) <= |shown| * cap
    requires forall i | 0 <= i < |shown| :: Narrow(shown[i])
    ensures var r := List(shown + if length > HEAD then [Rest(length - HEAD)] else []);
            Size(r) <= 1 + WIDTH * cap && Narrow(r)
  {
    if length > HEAD {
      var rest := Rest(length - HEAD);
      ItemsSizeOf(shown, [rest], |shown|);
      assert rest.fields[0].1 == Number(JsonTree.Decimal(length - HEAD));
      assert FieldsSize(rest, 1) == FieldsSize(rest, 0) + 1;
      assert Size(rest) == 2;
      var r := List(shown + [rest]);
      assert ItemsSize(r, |shown| + 1) == ItemsSize(r, |shown|) + Size(rest);
    } else {
      assert shown + [] == shown;
    }
  }

  lemma DeepFits(redact: Redaction, v: Value, depth: nat)
    requires Nested(v) && depth > 3
    ensures Fits(Project(redact, v, depth), depth)
  {
    if v.Dict? {
      FlatFits(redact, v.fields);
    } else {
      assert |"[nested data omitted]"| <= 666;
    }
  }

  /** `bounded`: whatever the input, the result has at most 24^0 + ... + 24^5 nodes, no list of more
      than four elements, no object of more than 24 fields and no text of more than 666 characters. */
  lemma BoundedSize(redact: Redaction, v: Value)
    ensures Size(Project(redact, v, 0)) <= 8308825 && Narrow(Project(redact, v, 0))
  {
    ProjectFits(redact, v, 0);
    CapValues();
  }

  // ---------- what is said about omissions ----------

  lemma {:induction false} ItemsAre(redact: Redaction, v: Value, n: nat, depth: nat)
    requires v.List? && n <= |v.items|
    ensures forall i | 0 <= i < n :: Items(redact, v, n, depth)[i] == Project(redact, v.items[i], depth)
  {
    if n > 0 {
      ItemsAre(redact, v, n - 1, depth);
    }
  }

  /** A list shows its first three elements, and says exactly how many are missing. */
  lemma ListAccounts(redact: Redaction, items: seq<Value>, depth: nat)
    requires depth <= 3
    ensures var r := Project(redact, List(items), depth);
            && r.List?
            && |r.items| == (if |items| <= 3 then |items| else 4)
            && (forall i | 0 <= i < |items| && i < 3 :: r.items[i] == Project(redact, items[i], depth + 1))
            && (|items| > 3 ==>
                  r.items[3] == Dict([("omitted_items", Number(JsonTree.Decimal(|items| - 3)))]))
  {
    ItemsAre(redact, List(items), if |items| <= HEAD then |items| else HEAD, depth + 1);
  }

  lemma {:induction false} FieldsAre(redact: Redaction, v: Value, n: nat, depth: nat, f: (string, Value))
    requires v.Dict? && n <= |v.fields|
    ensures f in Fields(redact, v, n, depth) <==> ShownOf(redact, v.fields, n, depth, f)
  {
    if n > 0 {
      FieldsAre(redact, v, n - 1, depth, f);
      if FieldShown(redact, v.fields, n - 1, depth, f) {
        assert f == (v.fields[n - 1].0, Project(redact, v.fields[n - 1].1, depth));
      }
    }
  }

  ghost predicate FieldShown(redact: Redaction, fields: seq<(string, Value)>, i: int, depth: nat,
                             f: (string, Value)) {
    && 0 <= i < |fields| && f.0 == fields[i].0 && f.0 !in OMITTED_KEYS
    && f.1 == Project(redact, fields[i].1, depth)
  }

  /** The field is one of the first `n`, projected, and not one that is always left out. */
  ghost predicate ShownOf(redact: Redaction, fields: seq<(string, Value)>, n: nat, depth: nat,
                          f: (string, Value)) {
    exists i :: i < n && FieldShown(redact, fields, i, depth, f)
  }

  /** Down to the depth limit an object shows exactly those of its first 24 fields that are not
      always left out, projected. */
  lemma ObjectShows(redact: Redaction, fields: seq<(string, Value)>, depth: nat, f: (string, Value))
    requires depth <= 3
    ensures var r := Project(redact, Dict(fields), depth);
            r.Dict? && (f in r.fields <==> ShownOf(redact, fields, 24, depth + 1, f))
  {
    FieldsAre(redact, Dict(fields), if |fields| <= WIDTH then |fields| else WIDTH, depth + 1, f);
  }

  /** A shortened text keeps its first 400 and last 250 characters; a short one is kept whole. */
  lemma TextKeepsEnds(s: string)
    ensures |s| <= 650 ==> Shortened(s) == s
    ensures |s| > 650 ==>
              && |Shortened(s)| == 666 && Shortened(s)[..400] == s[..400]
              && Shortened(s)[416..] == s[|s| - 250..]
  {
    assert |" [text omitted] "| == 16;
  }

  // ---------- what texts are shown ----------

  /** The text is a leaf of the value. */
  ghost predicate Says(v: Value, s: string) {
    match v
    case Text(t) => t == s
    case List(items) => exists i | 0 <= i < |items| :: Says(items[i], s)
    case Dict(fields) => exists i | 0 <= i < |fields| :: Says(fields[i].1, s)
    case _ => false
  }

  /** What is shown for a text: redacted first, then cut to its ends if it is long. */
  function Shown(redact: Redaction, s: string): string {
    var r := redact(s);
    if |r| <= 650 then r else r[..400] + " [text omitted] " + r[|r| - 250..]
  }

  /** The shown text comes from a text of the value. */
  ghost predicate ShownFrom(redact: Redaction, v: Value, t: string) {
    exists s :: Says(v, s) && t == Shown(redact, s)
  }

  lemma ShownAbove(redact: Redaction, v: Value, part: Value, t: string)
    requires ShownFrom(redact, part, t) && forall s | Says(part, s) :: Says(v, s)
    ensures ShownFrom(redact, v, t)
  {
    var s :| Says(part, s) && t == Shown(redact, s);
    assert Says(v, s);
  }

  /** Every text in a projection is the stand-in for something nested or a redacted text of the value: no
      text of the input gets through without redaction, at any depth. */
  lemma {:induction false} EveryTextRedacted(redact: Redaction, v: Value, depth: nat, t: string)
    requires Says(Project(redact, v, depth), t)
    ensures t == "[nested data omitted]" || ShownFrom(redact, v, t)
    decreases v, 1, 0
  {
    match v {
      case List(items) =>
        if depth <= 3 {
          var n := if |items| <= HEAD then |items| else HEAD;
          var shown := Project(redact, v, depth).items;
          if |items| > HEAD { RestSilent(|items| - HEAD, t); }
          var i :| 0 <= i < |shown| && Says(shown[i], t);
          if i < n {
            assert Says(Items(redact, v, n, depth + 1)[i], t);
            ItemsRedacted(redact, v, n, depth + 1, i, t);
          }
        }
      case Dict(fields) =>
        var shown := Project(redact, v, depth).fields;
        var i :| 0 <= i < |shown| && Says(shown[i].1, t);
        if depth > 3 {
          FlatRedacted(redact, fields, shown[i], t);
        } else {
          FieldsRedacted(redact, v, if |fields| <= WIDTH then |fields| else WIDTH, depth + 1, i, t);
        }
      case Text(s) => assert Says(v, s);
      case _ =>
    }
  }

  lemma RestSilent(n: nat, t: string)
    ensures !Says(Rest(n), t)
  {
    assert Rest(n).fields[0].1.Number?;
  }

  lemma {:induction false} ItemsRedacted(redact: Redaction, v: Value, n: nat, depth: nat, i: nat, t: string)
    requires v.List? && i < n <= |v.items| && Says(Items(redact, v, n, depth)[i], t)
    ensures t == "[nested data omitted]" || ShownFrom(redact, v, t)
    decreases v, 0, n
  {
    if i < n - 1 {
      assert Items(redact, v, n - 1, depth)[i] == Items(redact, v, n, depth)[i];
      ItemsRedacted(redact, v, n - 1, depth, i, t);
    } else {
      EveryTextRedacted(redact, v.items[i], depth, t);
      if ShownFrom(redact, v.items[i], t) { ShownAbove(redact, v, v.items[i], t); }
    }
  }

  lemma {:induction false} FieldsRedacted(redact: Redaction, v: Value, n: nat, depth: nat, i: nat, t: string)
    requires v.Dict? && n <= |v.fields| && i < |Fields(redact, v, n, depth)|
    requires Says(Fields(redact, v, n, depth)[i].1, t)
    ensures t == "[nested data omitted]" || ShownFrom(redact, v, t)
    decreases v, 0, n
  {
    var front := Fields(redact, v, n - 1, depth);
    if i < |front| {
      assert front[i] == Fields(redact, v, n, depth)[i];
      FieldsRedacted(redact, v, n - 1, depth, i, t);
    } else {
      EveryTextRedacted(redact, v.fields[n - 1].1, depth, t);
      if ShownFrom(redact, v.fields[n - 1].1, t) { ShownAbove(redact, v, v.fields[n - 1].1, t); }
    }
  }

  /** Below the depth limit. */
  lemma FlatRedacted(redact: Redaction, fields: seq<(string, Value)>, f: (string, Value), t: string)
    requires f in Leaves(redact, Cut(Flat(fields), WIDTH)) && Says(f.1, t)
    ensures ShownFrom(redact, Dict(fields), t)
  {
    var g := LeavesFrom(redact, Cut(Flat(fields), WIDTH), f);
    assert g in Flat(fields);
    PutFrom(Scalars(fields), MARKER, Flag(AnyNested(fields)), g);
    ScalarsFrom(fields);
    var i :| 0 <= i < |fields| && fields[i] == g;
    assert Says(fields[i].1, g.1.text);
    assert Says(Dict(fields), g.1.text) && t == Shown(redact, g.1.text);
  }

  lemma {:induction false} LeavesFrom(redact: Redaction, fields: seq<(string, Value)>, f: (string, Value))
    returns (g: (string, Value))
    requires f in Leaves(redact, fields)
    ensures g in fields && f.0 == g.0 && f.1 == Leaf(redact, g.1)
  {
    var n := |fields| - 1;
    if f in Leaves(redact, fields[..n]) {
      g := LeavesFrom(redact, fields[..n], f);
    } else {
      g := fields[n];
    }
  }

  lemma {:induction false} PutFrom(fields: seq<(string, Value)>, key: string, value: Value, g: (string, Value))
    requires g in Put(fields, key, value)
    ensures g in fields || g.1 == value
  {
    if fields != [] && fields[0].0 != key && g != fields[0] {
      PutFrom(fields[1..], key, value, g);
    }
  }

  lemma {:induction false} ScalarsFrom(fields: seq<(string, Value)>)
    ensures forall f :: f in Scalars(fields) <==> f in fields && !Nested(f.1)
  {
    if fields != [] {
      var n := |fields| - 1;
      ScalarsFrom(fields[..n]);
      assert fields == fields[..n] + [fields[n]];
    }
  }

  /** The first position of a key, or the end. */
  function Place(fields: seq<(string, Value)>, key: string): (p: nat)
    ensures p <= |fields|
    ensures forall i | 0 <= i < p :: fields[i].0 != key
    ensures p < |fields| ==> fields[p].0 == key
  {
    if fields == [] || fields[0].0 == key then 0 else 1 + Place(fields[1..], key)
  }

  lemma {:induction false} PutAt(fields: seq<(string, Value)>, key: string, value: Value)
    ensures var p := Place(fields, key);
            Put(fields, key, value) ==
            if p < |fields| then fields[p := (key, value)] else fields + [(key, value)]
  {
    if fields != [] && fields[0].0 != key {
      var tail, put := fields[1..], (key, value);
      PutAt(tail, key, value);
      var p := Place(tail, key);
      if p < |tail| {
        assert [fields[0]] + tail[p := put] == fields[p + 1 := put];
      } else {
        assert [fields[0]] + (tail + [put]) == fields + [put];
      }
    }
  }

  lemma {:induction false} LeavesInclude(redact: Redaction, fields: seq<(string, Value)>, f: (string, Value))
    requires f in fields && f.0 !in OMITTED_KEYS
    ensures (f.0, Leaf(redact, f.1)) in Leaves(redact, fields)
  {
    var n := |fields| - 1;
    if f != fields[n] {
      assert fields == fields[..n] + [fields[n]];
      LeavesInclude(redact, fields[..n], f);
    }
  }

  lemma {:induction false} LeavesKeys(redact: Redaction, fields: seq<(string, Value)>, key: string)
    requires forall i | 0 <= i < |fields| :: fields[i].0 != key
    ensures forall f | f in Leaves(redact, fields) :: f.0 != key
  {
    if fields != [] {
      LeavesKeys(redact, fields[..|fields| - 1], key);
    }
  }

  lemma MarkerIsKept()
    ensures MARKER !in OMITTED_KEYS
  {
    assert MARKER[0] == '_';
    assert forall k | k in OMITTED_KEYS :: k[0] != '_';
  }

  ghost predicate Tells(v: Value, b: bool) {
    v.Dict? && exists f :: f in v.fields && f.0 == MARKER && f.1 == Flag(b)
  }

  ghost predicate Silent(v: Value) {
    v.Dict? && forall f | f in v.fields :: f.0 != MARKER
  }

  /** Where the remark on nested data ends up: at an existing key of that name, else behind all
      scalars. */
  function RemarkPlace(fields: seq<(string, Value)>): nat {
    Place(Scalars(fields), MARKER)
  }

  lemma FlatAt(fields: seq<(string, Value)>)
    ensures var p := RemarkPlace(fields);
            && p < |Flat(fields)| && Flat(fields)[p] == (MARKER, Flag(AnyNested(fields)))
            && forall i | 0 <= i < p :: Flat(fields)[i].0 != MARKER
  {
    PutAt(Scalars(fields), MARKER, Flag(AnyNested(fields)));
  }

  /** Below the depth limit an object tells whether nested data was left out exactly if the remark is
      placed among the first 24 fields: if the object already has a scalar of that name there, or has
      none and fewer than 24 scalars.  Otherwise it is silent, nested data or not. */
  lemma OmissionIsTold(redact: Redaction, fields: seq<(string, Value)>, depth: nat)
    requires depth > 3
    ensures var r := Project(redact, Dict(fields), depth);
            && (Tells(r, AnyNested(fields)) <==> RemarkPlace(fields) < 24)
            && (Silent(r) <==> RemarkPlace(fields) >= 24)
  {
    var p, shown := RemarkPlace(fields), Cut(Flat(fields), WIDTH);
    FlatAt(fields);
    if p < 24 {
      MarkerIsKept();
      assert shown[p] == Flat(fields)[p];
      LeavesInclude(redact, shown, (MARKER, Flag(AnyNested(fields))));
    } else {
      assert forall i | 0 <= i < |shown| :: shown[i].0 != MARKER;
      LeavesKeys(redact, shown, MARKER);
    }
  }

  /** `n` numbers under keys of different lengths. */
  function Numbers(n: nat): seq<(string, Value)> {
    seq(n, i requires 0 <= i => (seq(i, _ => 'a'), Number("0")))
  }

  /** An object with `n` numbers and a list. */
  function Crowded(n: nat): seq<(string, Value)> {
    Numbers(n) + [("b", List([]))]
  }

  lemma {:induction false} LeavesAreScalars(fields: seq<(string, Value)>)
    requires forall i | 0 <= i < |fields| :: !Nested(fields[i].1)
    ensures Scalars(fields) == fields
  {
    if fields != [] {
      var front, last := fields[..|fields| - 1], fields[|fields| - 1];
      LeavesAreScalars(front);
      assert fields == front + [last];
    }
  }

  lemma ScalarsBefore(scalars: seq<(string, Value)>, last: (string, Value))
    requires (forall i | 0 <= i < |scalars| :: !Nested(scalars[i].1)) && Nested(last.1)
    ensures Scalars(scalars + [last]) == scalars && AnyNested(scalars + [last])
  {
    LeavesAreScalars(scalars);
    assert (scalars + [last])[..|scalars|] == scalars;
    assert last in scalars + [last];
  }

  lemma NumbersUnmarked(n: nat)
    ensures Place(Numbers(n), MARKER) == n
  {
    forall i | 0 <= i < n
      ensures Numbers(n)[i].0 != MARKER
    {
      if i > 0 { assert Numbers(n)[i].0[0] == 'a' && MARKER[0] == '_'; }
    }
  }

  /** A concrete object whose nested data disappears without a word. */
  lemma SilentOmission(redact: Redaction)
    ensures AnyNested(Crowded(24)) && Silent(Project(redact, Dict(Crowded(24)), 4))
  {
    ScalarsBefore(Numbers(24), ("b", List([])));
    NumbersUnmarked(24);
    OmissionIsTold(redact, Crowded(24), 4);
  }

  /** One with as many scalars that tells, because it has been projected before: its own remark keeps
      its place. */
  lemma RemarkKeepsPlace(redact: Redaction, b: bool)
    ensures var fields := [(MARKER, Flag(b))] + Crowded(23);
            && |Scalars(fields)| == 24 && AnyNested(fields)
            && Tells(Project(redact, Dict(fields), 4), true)
  {
    var scalars := [(MARKER, Flag(b))] + Numbers(23);
    ScalarsBefore(scalars, ("b", List([])));
    assert [(MARKER, Flag(b))] + Crowded(23) == scalars + [("b", List([]))];
    assert Place(scalars, MARKER) == 0;
    OmissionIsTold(redact, scalars + [("b", List([]))], 4);
  }
}
