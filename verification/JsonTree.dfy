/** JSON documents as trees, the slash-separated pointers that address them, and what a write
    at a pointer changes. */
module JsonTree {
  import opened Wrappers

  /** A parsed JSON document.  Objects are unordered, as equality of Python dictionaries is; a
      number is its literal. */
  datatype Json =
    | Null
    | Bool(flag: bool)
    | Number(literal: string)
    | Text(text: string)
    | Arr(items: seq<Json>)
    | Obj(fields: map<string, Json>)

  /** A location: the keys and list positions on the way down from the root. */
  type Path = seq<string>

  // ---------- list positions in decimal ----------

  predicate IsDigit(c: char) {
    '0' <= c <= '9'
  }

  predicate AllDigits(s: string) {
    forall i | 0 <= i < |s| :: IsDigit(s[i])
  }

  function Digit(d: nat): (c: char)
    requires d < 10
  {
    (d + '0' as int) as char
  }

  /** `str(n)` for a list position. */
  function Decimal(n: nat): string {
    if n < 10 then [Digit(n)] else Decimal(n / 10) + [Digit(n % 10)]
  }

  function DigitsValue(s: string): nat
    requires AllDigits(s)
  {
    if s == "" then 0 else DigitsValue(s[..|s| - 1]) * 10 + (s[|s| - 1] as int - '0' as int)
  }

  /** `int(segment)`, for segments in ordinary decimal notation. */
  function Position(segment: string): Option<nat> {
    if segment != "" && AllDigits(segment) && (|segment| == 1 || segment[0] != '0')
    then Some(DigitsValue(segment))
    else None
  }

  lemma {:induction false} PositionOfDecimal(n: nat)
    ensures Position(Decimal(n)) == Some(n)
    ensures n > 0 ==> Decimal(n)[0] != '0'
  {
    if n < 10 {
      assert DigitsValue([]) == 0;
    } else {
      PositionOfDecimal(n / 10);
      var s := Decimal(n);
      assert s[..|s| - 1] == Decimal(n / 10);
    }
  }

  lemma {:induction false} DecimalOfPosition(s: string)
    requires Position(s).Some?
    ensures s == Decimal(Position(s).value)
  {
    var n := Position(s).value;
    var front, d := s[..|s| - 1], s[|s| - 1] as int - '0' as int;
    assert s == front + [Digit(d)];
    if |s| == 1 {
      assert DigitsValue(front) == 0;
    } else {
      DecimalOfPosition(front);
      LeadingDigit(front);
      assert n / 10 == DigitsValue(front) && n % 10 == d;
    }
  }

  lemma {:induction false} LeadingDigit(s: string)
    requires s != "" && AllDigits(s) && s[0] != '0'
    ensures DigitsValue(s) > 0
  {
    if |s| == 1 {
      assert DigitsValue(s[..0]) == 0;
    } else {
      LeadingDigit(s[..|s| - 1]);
    }
  }

  // ---------- pointers ----------

  function StripLeft(s: string): string {
    if s != "" && s[0] == '/' then StripLeft(s[1..]) else s
  }

  function StripRight(s: string): string {
    if s != "" && s[|s| - 1] == '/' then StripRight(s[..|s| - 1]) else s
  }

  /** `s.split("/")` */
  function Split(s: string): (parts: Path)
    ensures |parts| >= 1
  {
    if s == "" then [""]
    else
      var rest := Split(s[1..]);
      if s[0] == '/' then [""] + rest else [[s[0]] + rest[0]] + rest[1..]
  }

  /** `pointer.strip("/").split("/")` */
  function Segments(pointer: string): (parts: Path)
    ensures |parts| >= 1
  {
    Split(StripRight(StripLeft(pointer)))
  }

  /** `"/".join(parts)` */
  function Joined(path: Path): string {
    if path == [] then "" else if |path| == 1 then path[0] else path[0] + "/" + Joined(path[1..])
  }

  /** The pointer to a location. */
  function Pointer(path: Path): string {
    "/" + Joined(path)
  }

  ghost predicate Plain(segment: string) {
    segment != "" && '/' !in segment
  }

  ghost predicate AllPlain(path: Path) {
    path == [] || (Plain(path[0]) && AllPlain(path[1..]))
  }

  lemma {:induction false} SplitSegment(segment: string, rest: string)
    requires '/' !in segment
    ensures Split(segment) == [segment]
    ensures Split(segment + "/" + rest) == [segment] + Split(rest)
  {
    var s := segment + "/" + rest;
    if segment == "" {
      assert s[1..] == rest;
    } else {
      SplitSegment(segment[1..], rest);
      assert s[1..] == segment[1..] + "/" + rest;
      assert [segment[0]] + segment[1..] == segment;
    }
  }

  /** Text that begins and ends with something other than a slash. */
  ghost predicate Bare(s: string) {
    s != "" && s[0] != '/' && s[|s| - 1] != '/'
  }

  lemma BareJoin(first: string, rest: string)
    requires Plain(first) && Bare(rest)
    ensures Bare(first + "/" + rest)
  {
  }

  lemma {:induction false} SplitJoined(path: Path)
    requires path != [] && AllPlain(path)
    ensures Bare(Joined(path))
    ensures Split(Joined(path)) == path
  {
    var first, below := path[0], path[1..];
    if below == [] {
      SplitSegment(first, "");
      assert path == [first];
    } else {
      SplitJoined(below);
      var rest := Joined(below);
      SplitSegment(first, rest);
      BareJoin(first, rest);
      assert Joined(path) == first + "/" + rest;
      assert path == [first] + below;
    }
  }

  /** Reading a pointer back gives the location it was built from. */
  lemma SegmentsOfPointer(path: Path)
    requires path != [] && AllPlain(path)
    ensures Segments(Pointer(path)) == path
  {
    SplitJoined(path);
    assert Pointer(path)[1..] == Joined(path);
    assert StripLeft(Pointer(path)) == StripLeft(Joined(path)) == Joined(path);
  }

  // ---------- reading ----------

  /** `node[int(segment)]` on a list, `node[segment]` on an object; None where Python raises. */
  function Child(node: Json, segment: string): Option<Json> {
    match node
    case Obj(fields) => if segment in fields then Some(fields[segment]) else None
    case Arr(items) =>
      (match Position(segment)
       case Some(i) => if i < |items| then Some(items[i]) else None
       case None => None)
    case _ => None
  }

  /** The subtree at a location, if the location resolves. */
  function At(tree: Json, path: Path): Option<Json> {
    if path == [] then Some(tree)
    else
      match Child(tree, path[0])
      case Some(child) => At(child, path[1..])
      case None => None
  }

  /** What is visible at a location without going further down. */
  datatype Shape = Absent | Leaf(value: Json) | ListOf(length: nat) | ObjectOf(keys: set<string>)

  function ShapeOf(node: Option<Json>): Shape {
    match node
    case None => Absent
    case Some(Arr(items)) => ListOf(|items|)
    case Some(Obj(fields)) => ObjectOf(fields.Keys)
    case Some(leaf) => Leaf(leaf)
  }

  function ShapeAt(tree: Json, path: Path): Shape {
    ShapeOf(At(tree, path))
  }

  // ---------- writing ----------

  /** `node[segment] = value`: an object may gain a key, a list position must exist. */
  function SetChild(node: Json, segment: string, value: Json): Option<Json> {
    match node
    case Obj(fields) => Some(Obj(fields[segment := value]))
    case Arr(items) =>
      (match Position(segment)
       case Some(i) => if i < |items| then Some(Arr(items[i := value])) else None
       case None => None)
    case _ => None
  }

  /** The tree after assigning `value` at a location; None where Python raises. */
  function Write(tree: Json, path: Path, value: Json): Option<Json> {
    if path == [] then Some(value)
    else if |path| == 1 then SetChild(tree, path[0], value)
    else
      match Child(tree, path[0])
      case None => None
      case Some(child) =>
        match Write(child, path[1..], value)
        case None => None
        case Some(child') => SetChild(tree, path[0], child')
  }

  // ---------- what a write changes ----------

  lemma ChildOfSetChild(node: Json, segment: string, value: Json, other: string)
    requires Child(node, segment).Some?
    ensures SetChild(node, segment, value).Some?
    ensures Child(SetChild(node, segment, value).value, other) ==
            if other == segment then Some(value) else Child(node, other)
    ensures ShapeOf(SetChild(node, segment, value)) == ShapeOf(Some(node))
  {
    if node.Arr? && Position(other).Some? && other != segment {
      DecimalOfPosition(other);
      DecimalOfPosition(segment);
    }
    if node.Obj? {
      assert SetChild(node, segment, value).value.fields.Keys == node.fields.Keys;
    }
  }

  lemma PrefixOfCons(p: Path, q: Path)
    requires p != [] && q != []
    ensures p <= q <==> p[0] == q[0] && p[1..] <= q[1..]
    ensures p <= q ==> q[|p|..] == q[1..][|p| - 1..]
  {
    if p[0] == q[0] && p[1..] <= q[1..] {
      assert p == [p[0]] + p[1..] && q == [q[0]] + q[1..];
      assert forall i | 0 < i < |p| :: p[i] == p[1..][i - 1] && q[i] == q[1..][i - 1];
    }
  }

  /** What a write at a location does to a location: at and below the written one it is the value's
      subtree, beside it nothing changes, and above it the shape stays. */
  ghost predicate Wrote(tree: Json, path: Path, value: Json, l: Path) {
    && Write(tree, path, value).Some?
    && (path <= l ==> At(Write(tree, path, value).value, l) == At(value, l[|path|..]))
    && (!(path <= l) ==> ShapeAt(Write(tree, path, value).value, l) == ShapeAt(tree, l))
    && (!(path <= l) && !(l <= path) ==> At(Write(tree, path, value).value, l) == At(tree, l))
  }

  /** A write at a location that resolves succeeds, is read back at that location and below it,
      and leaves the shape of every other location alone. */
  lemma {:induction false} WriteEffect(tree: Json, path: Path, value: Json, l: Path)
    requires At(tree, path).Some?
    ensures Wrote(tree, path, value, l)
  {
    if path != [] {
      var child, below := Child(tree, path[0]).value, path[1..];
      WriteEffect(child, below, value, if l == [] then [] else l[1..]);
      WriteStep(tree, path, value, if l == [] then "" else l[0]);
      if l == [] {
      } else if l[0] == path[0] {
        PrefixOfCons(path, l);
        PrefixOfCons(l, path);
      } else {
        assert !(path <= l) && !(l <= path);
      }
    }
  }

  /** A write below the root replaces one child. */
  lemma WriteStep(tree: Json, path: Path, value: Json, other: string)
    requires path != [] && Child(tree, path[0]).Some?
    requires Write(Child(tree, path[0]).value, path[1..], value).Some?
    ensures Write(tree, path, value).Some?
    ensures Child(Write(tree, path, value).value, other) ==
            if other == path[0] then Write(Child(tree, path[0]).value, path[1..], value)
            else Child(tree, other)
    ensures ShapeOf(Write(tree, path, value)) == ShapeOf(Some(tree))
  {
    var child' := Write(Child(tree, path[0]).value, path[1..], value).value;
    assert Write(tree, path, value) == SetChild(tree, path[0], child');
    ChildOfSetChild(tree, path[0], child', other);
  }

  lemma {:induction false} AtConcat(tree: Json, p: Path, q: Path)
    ensures At(tree, p + q) == if At(tree, p).Some? then At(At(tree, p).value, q) else None
  {
    if p == [] {
      assert p + q == q;
    } else {
      assert (p + q)[0] == p[0] && (p + q)[1..] == p[1..] + q;
      if Child(tree, p[0]).Some? {
        AtConcat(Child(tree, p[0]).value, p[1..], q);
      }
    }
  }

  /** Overwriting a location of one tree by the subtree another tree has there keeps every
      location resolvable that resolves in both. */
  lemma {:induction false} TransplantResolves(tree: Json, donor: Json, path: Path, q: Path)
    requires At(tree, path).Some? && At(donor, path).Some?
    requires At(tree, q).Some? && At(donor, q).Some?
    ensures Write(tree, path, At(donor, path).value).Some?
    ensures At(Write(tree, path, At(donor, path).value).value, q).Some?
  {
    WriteEffect(tree, path, At(donor, path).value, q);
    if path <= q {
      AtConcat(donor, path, q[|path|..]);
      assert path + q[|path|..] == q;
    } else {
      assert ShapeAt(tree, q) != Absent;
    }
  }

  /** Trees that look the same at every location are the same tree. */
  lemma {:induction false} Extensionality(a: Json, b: Json)
    requires forall l: Path :: ShapeAt(a, l) == ShapeAt(b, l)
    ensures a == b
    decreases a
  {
    assert ShapeAt(a, []) == ShapeAt(b, []);
    if a.Obj? {
      forall k | k in a.fields
        ensures a.fields[k] == b.fields[k]
      {
        SameBelow(a, b, k);
        Extensionality(a.fields[k], b.fields[k]);
      }
      assert a.fields == b.fields;
    } else if a.Arr? {
      forall i | 0 <= i < |a.items|
        ensures a.items[i] == b.items[i]
      {
        PositionOfDecimal(i);
        SameBelow(a, b, Decimal(i));
        Extensionality(a.items[i], b.items[i]);
      }
    }
  }

  lemma SameBelow(a: Json, b: Json, k: string)
    requires forall l: Path :: ShapeAt(a, l) == ShapeAt(b, l)
    requires Child(a, k).Some? && Child(b, k).Some?
    ensures forall l: Path :: ShapeAt(Child(a, k).value, l) == ShapeAt(Child(b, k).value, l)
  {
    forall l: Path
      ensures ShapeAt(Child(a, k).value, l) == ShapeAt(Child(b, k).value, l)
    {
      assert ([k] + l)[1..] == l;
      assert ShapeAt(a, [k] + l) == ShapeAt(b, [k] + l);
    }
  }

  // ---------- agreement outside a set of pointers ----------

  /** Some pointer of the set is at or above the location. */
  ghost predicate Covered(l: Path, pointers: set<Path>) {
    exists p | p in pointers :: p <= l
  }

  /** The two trees look the same everywhere except at and below the pointers: same scalar, same
      list length, same keys, also in the containers on the way to a pointer. */
  ghost predicate AgreeOutside(a: Json, b: Json, pointers: set<Path>) {
    forall l: Path | !Covered(l, pointers) :: ShapeAt(a, l) == ShapeAt(b, l)
  }

  lemma PrefixesCompare(p: Path, l: Path, rest: Path)
    requires p <= l + rest
    ensures p <= l || l <= p
  {
    assert p == (l + rest)[..|p|];
    assert if |p| <= |l| then p == l[..|p|] else l == p[..|l|];
  }

  /** Where no pointer is at, above or below a location, the whole subtrees are equal. */
  lemma AgreeSubtrees(a: Json, b: Json, pointers: set<Path>, l: Path)
    requires AgreeOutside(a, b, pointers)
    requires forall p | p in pointers :: !(p <= l) && !(l <= p)
    ensures At(a, l) == At(b, l)
  {
    assert !Covered(l, pointers);
    if At(a, l).Some? && At(b, l).Some? {
      forall l': Path
        ensures ShapeAt(At(a, l).value, l') == ShapeAt(At(b, l).value, l')
      {
        AtConcat(a, l, l');
        AtConcat(b, l, l');
        forall p | p in pointers
          ensures !(p <= l + l')
        {
          if p <= l + l' { PrefixesCompare(p, l, l'); }
        }
        assert ShapeAt(a, l + l') == ShapeAt(b, l + l');
      }
      Extensionality(At(a, l).value, At(b, l).value);
    }
  }

  lemma AgreeEverywhere(a: Json, b: Json)
    requires AgreeOutside(a, b, {})
    ensures a == b
  {
    forall l: Path
      ensures ShapeAt(a, l) == ShapeAt(b, l)
    {
      assert !Covered(l, {});
    }
    Extensionality(a, b);
  }
}
