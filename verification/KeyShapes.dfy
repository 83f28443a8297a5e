/**
 * The closed-key walk of policy rules (section 4 of RFC-MACP-0012): `keyShapeOf` and
 * `unionKeyViolations`.  An object's fields are listed in the order of its sorted keys.
 */
module KeyShapes {
  import opened Prelude

  datatype Field = Field(key: string, value: Json)

  datatype Json = Obj(fields: seq<Field>) | Bool(b: bool) | Other

  /** The shapes one key may have; `KeyShape[]`. */
  datatype Family = Family(shapes: seq<Shape>)

  /** `KeyShape`: the children of each declared key, or open. */
  datatype Shape = Open | Closed(children: map<string, Family>)

  datatype Violation = NotDefined(path: string) | VendorBelowTop(path: string)

  // ---- Keys -----------------------------------------------------------------------------------

  predicate IsAnnotation(key: string) { key != "" && (key[0] == '_' || key[0] == '$') }

  predicate Alphanumeric(c: char) { 'a' <= c <= 'z' || '0' <= c <= '9' }

  predicate LabelChar(c: char) { Alphanumeric(c) || c == '-' }

  /** Where a run of the characters accepted by `ok`, starting at i, ends. */
  function RunEnd(key: string, i: nat, ok: char -> bool): (j: nat)
    requires i <= |key|
    ensures i <= j <= |key|
    decreases |key| - i
  {
    if i < |key| && ok(key[i]) then RunEnd(key, i + 1, ok) else i
  }

  /** One or more labels, each a dot and one or more of `[a-z0-9-]`, up to the end. */
  predicate Labels(key: string, i: nat)
    requires i <= |key|
    decreases |key| - i
  {
    && i < |key| && key[i] == '.'
    && var j := RunEnd(key, i + 1, LabelChar);
    j > i + 1 && (j == |key| || Labels(key, j))
  }

  /** `^x-[a-z0-9]+(\.[a-z0-9-]+)+$` */
  predicate IsVendorExtension(key: string) {
    && |key| >= 2 && key[..2] == "x-"
    && var j := RunEnd(key, 2, Alphanumeric);
    j > 2 && Labels(key, j)
  }

  /** A key the shapes decide about. */
  predicate Ordinary(key: string) { !IsAnnotation(key) && !IsVendorExtension(key) }

  function Join(path: string, key: string): string { if path == "" then key else path + "." + key }

  // ---- keyShapeOf -----------------------------------------------------------------------------

  /** The value of a key among the first n fields. */
  function Find(fields: seq<Field>, n: nat, key: string): (r: Option<Json>)
    requires n <= |fields|
    ensures r.Some? ==> exists i :: 0 <= i < n && fields[i].key == key && fields[i].value == r.value
  {
    if n == 0 then None else if fields[n - 1].key == key then Some(fields[n - 1].value) else Find(fields, n - 1, key)
  }

  function Get(v: Json, key: string): Option<Json> { if v.Obj? then Find(v.fields, |v.fields|, key) else None }

  predicate IsClosed(schema: Json) { Get(schema, "additionalProperties") == Some(Bool(false)) }

  /** `keyShapeOf`: closed exactly where `additionalProperties` is `false`. */
  function ShapeOf(schema: Json): Shape
    decreases schema, 0
  {
    if !IsClosed(schema) then Open
    else match Get(schema, "properties")
      case Some(p) => if p.Obj? then Closed(ChildShapes(p, |p.fields|)) else Closed(map[])
      case None => Closed(map[])
  }

  function ChildShapes(props: Json, n: nat): map<string, Family>
    requires props.Obj? && n <= |props.fields|
    decreases props, n
  {
    if n == 0 then map[]
    else ChildShapes(props, n - 1)[props.fields[n - 1].key := Family([ShapeOf(props.fields[n - 1].value)])]
  }

  method KeyShapeOf(schema: Json) returns (shape: Shape)
    ensures shape == ShapeOf(schema)
    decreases schema
  {
    if !IsClosed(schema) { return Open; }
    var children: map<string, Family> := map[];
    var p := Get(schema, "properties");
    if p.Some? && p.value.Obj? {
      var i := 0;
      while i < |p.value.fields|
        invariant i <= |p.value.fields| && children == ChildShapes(p.value, i)
      {
        var child := KeyShapeOf(p.value.fields[i].value);
        children := children[p.value.fields[i].key := Family([child])];
        i := i + 1;
      }
    }
    return Closed(children);
  }

  // ---- unionKeyViolations ---------------------------------------------------------------------

  predicate AnyClosed(shapes: seq<Shape>) { exists i :: 0 <= i < |shapes| && shapes[i].Closed? }

  function ChildrenOf(shape: Shape, key: string): seq<Shape> {
    if shape.Closed? && key in shape.children then shape.children[key].shapes else []
  }

  /** What the closed shapes among these say of a key, one after the other. */
  function Children(shapes: seq<Shape>, key: string): seq<Shape>
    decreases |shapes|
  {
    if shapes == [] then [] else Children(shapes[..|shapes| - 1], key) + ChildrenOf(shapes[|shapes| - 1], key)
  }

  function Violations(v: Json, shapes: seq<Shape>, path: string, top: bool): seq<Violation>
    decreases v, 1, 0
  {
    if v.Obj? && AnyClosed(shapes) then FieldViolations(v, |v.fields|, shapes, path, top) else []
  }

  /** The violations in the first n fields. */
  function FieldViolations(v: Json, n: nat, shapes: seq<Shape>, path: string, top: bool): seq<Violation>
    requires v.Obj? && n <= |v.fields|
    decreases v, 0, n
  {
    if n == 0 then []
    else
      var f := v.fields[n - 1];
      FieldViolations(v, n - 1, shapes, path, top)
      + if IsAnnotation(f.key) then []
        else if IsVendorExtension(f.key) then (if top then [] else [VendorBelowTop(Join(path, f.key))])
        else if Children(shapes, f.key) == [] then [NotDefined(Join(path, f.key))]
        else Violations(f.value, Children(shapes, f.key), Join(path, f.key), false)
  }

  /** The loop over `closed.flatMap(...)`. */
  method FlatMapChildren(closed: seq<Shape>, key: string) returns (children: seq<Shape>)
    ensures children == Children(closed, key)
  {
    children := [];
    var i := 0;
    while i < |closed|
      invariant i <= |closed| && children == Children(closed[..i], key)
    {
      assert closed[..i + 1][..i] == closed[..i];
      if closed[i].Closed? && key in closed[i].children {
        children := children + closed[i].children[key].shapes;
      }
      i := i + 1;
    }
    assert closed[..i] == closed;
  }

  /** Open shapes say nothing, so dropping them first changes nothing. */
  method ClosedShapes(shapes: seq<Shape>) returns (closed: seq<Shape>)
    ensures |closed| == 0 <==> !AnyClosed(shapes)
    ensures forall key :: Children(closed, key) == Children(shapes, key)
  {
    closed := [];
    var i := 0;
    while i < |shapes|
      invariant i <= |shapes|
      invariant |closed| == 0 <==> !AnyClosed(shapes[..i])
      invariant forall key :: Children(closed, key) == Children(shapes[..i], key)
    {
      assert shapes[..i + 1][..i] == shapes[..i];
      OneMore(shapes[..i], shapes[i]);
      if shapes[i].Closed? {
        assert (closed + [shapes[i]])[..|closed|] == closed;
        closed := closed + [shapes[i]];
      }
      assert shapes[..i + 1] == shapes[..i] + [shapes[i]];
      i := i + 1;
    }
    assert shapes[..i] == shapes;
  }

  lemma {:induction false} OneMore(shapes: seq<Shape>, s: Shape)
    ensures AnyClosed(shapes + [s]) <==> AnyClosed(shapes) || s.Closed?
  {
    if AnyClosed(shapes) {
      var i :| 0 <= i < |shapes| && shapes[i].Closed?;
      assert (shapes + [s])[i].Closed?;
    }
    assert (shapes + [s])[|shapes|] == s;
  }

  method UnionKeyViolations(v: Json, shapes: seq<Shape>, path: string, top: bool) returns (violations: seq<Violation>)
    ensures violations == Violations(v, shapes, path, top)
    decreases v, 1
  {
    if !v.Obj? { return []; }
    var closed := ClosedShapes(shapes);
    if |closed| == 0 { return []; }
    violations := [];
    var i := 0;
    while i < |v.fields|
      invariant i <= |v.fields| && violations == FieldViolations(v, i, shapes, path, top)
    {
      var more := KeyViolations(v, i, closed, shapes, path, top);
      violations := violations + more;
      i := i + 1;
    }
  }

  /** One key: skipped, refused, or its value walked against every child. */
  method KeyViolations(v: Json, i: nat, closed: seq<Shape>, ghost shapes: seq<Shape>, path: string, top: bool)
    returns (violations: seq<Violation>)
    requires v.Obj? && i < |v.fields| && Children(closed, v.fields[i].key) == Children(shapes, v.fields[i].key)
    ensures FieldViolations(v, i + 1, shapes, path, top) == FieldViolations(v, i, shapes, path, top) + violations
    decreases v, 0
  {
    var key, childPath := v.fields[i].key, Join(path, v.fields[i].key);
    if IsAnnotation(key) { return []; }
    if IsVendorExtension(key) { return if top then [] else [VendorBelowTop(childPath)]; }
    var children := FlatMapChildren(closed, key);
    if |children| == 0 { return [NotDefined(childPath)]; }
    violations := UnionKeyViolations(v.fields[i].value, children, childPath, false);
  }

  // ---- One merged tree ------------------------------------------------------------------------

  /** A shape with one child a key. */
  datatype Tree = Anything | Node(children: map<string, Tree>)

  ghost function MaxOf(s: set<nat>): (m: nat)
    ensures forall x <- s :: x <= m
    ensures s != {} ==> m in s
  {
    if s == {} then 0
    else
      var x :| x in s;
      var rest := MaxOf(s - {x});
      assert forall y <- s :: y == x || y in s - {x};
      if x < rest then rest else x
  }

  ghost function Height(s: Shape): nat {
    match s
    case Open => 0
    case Closed(m) => 1 + MaxOf(set k, i | k in m && 0 <= i < |m[k].shapes| :: Height(m[k].shapes[i]))
  }

  lemma {:induction false} ChildHeight(s: Shape, key: string, c: Shape)
    requires c in ChildrenOf(s, key)
    ensures Height(c) < Height(s)
  {
    var m := s.children;
    var i :| 0 <= i < |m[key].shapes| && m[key].shapes[i] == c;
    var below := set k, i | k in m && 0 <= i < |m[k].shapes| :: Height(m[k].shapes[i]);
    assert Height(m[key].shapes[i]) in below;
  }

  /** The tallest of these shapes, counted from one so that an empty family is lowest. */
  ghost function Tallest(shapes: seq<Shape>): nat { MaxOf(set i | 0 <= i < |shapes| :: Height(shapes[i]) + 1) }

  lemma {:induction false} ChildrenMembers(shapes: seq<Shape>, key: string)
    ensures forall c :: c in Children(shapes, key) <==> exists s :: s in shapes && c in ChildrenOf(s, key)
    decreases |shapes|
  {
    if shapes != [] {
      var n := |shapes| - 1;
      ChildrenMembers(shapes[..n], key);
      assert shapes == shapes[..n] + [shapes[n]];
    }
  }

  lemma {:induction false} TallestBound(shapes: seq<Shape>, s: Shape)
    requires s in shapes
    ensures Height(s) < Tallest(shapes)
  {
    var i :| 0 <= i < |shapes| && shapes[i] == s;
    var heights := set i | 0 <= i < |shapes| :: Height(shapes[i]) + 1;
    assert Height(shapes[i]) + 1 in heights;
  }

  lemma {:induction false} TallestMember(shapes: seq<Shape>) returns (s: Shape)
    requires shapes != []
    ensures s in shapes && Tallest(shapes) == Height(s) + 1
  {
    var heights := set i | 0 <= i < |shapes| :: Height(shapes[i]) + 1;
    assert Height(shapes[0]) + 1 in heights;
    var i :| 0 <= i < |shapes| && Height(shapes[i]) + 1 == MaxOf(heights);
    s := shapes[i];
  }

  lemma {:induction false} ChildrenShorter(shapes: seq<Shape>, key: string)
    requires Children(shapes, key) != []
    ensures Tallest(Children(shapes, key)) < Tallest(shapes)
  {
    var c := TallestMember(Children(shapes, key));
    ChildrenMembers(shapes, key);
    var s :| s in shapes && c in ChildrenOf(s, key);
    ChildHeight(s, key, c);
    TallestBound(shapes, s);
  }

  /** The keys some closed shape of the family gives a child. */
  ghost function Defined(shapes: seq<Shape>): set<string> {
    set i, k | 0 <= i < |shapes| && shapes[i].Closed? && k in shapes[i].children && Children(shapes, k) != [] :: k
  }

  lemma {:induction false} DefinedIff(shapes: seq<Shape>, key: string)
    ensures key in Defined(shapes) <==> Children(shapes, key) != []
  {
    if Children(shapes, key) != [] {
      ChildrenMembers(shapes, key);
      var c := Children(shapes, key)[0];
      assert c in Children(shapes, key);
      var s :| s in shapes && c in ChildrenOf(s, key);
      var i :| 0 <= i < |shapes| && shapes[i] == s;
    }
  }

  ghost function Merge(shapes: seq<Shape>): Tree
    decreases Tallest(shapes)
  {
    if !AnyClosed(shapes) then Anything
    else Node(map k | k in Defined(shapes) :: ChildrenShorter(shapes, k); Merge(Children(shapes, k)))
  }

  /** The walk against one tree. */
  function Check(v: Json, t: Tree, path: string, top: bool): seq<Violation>
    decreases v, 1, 0
  {
    if v.Obj? && t.Node? then CheckFields(v, |v.fields|, t, path, top) else []
  }

  function CheckFields(v: Json, n: nat, t: Tree, path: string, top: bool): seq<Violation>
    requires v.Obj? && n <= |v.fields| && t.Node?
    decreases v, 0, n
  {
    if n == 0 then []
    else
      var f := v.fields[n - 1];
      CheckFields(v, n - 1, t, path, top)
      + if IsAnnotation(f.key) then []
        else if IsVendorExtension(f.key) then (if top then [] else [VendorBelowTop(Join(path, f.key))])
        else if f.key !in t.children then [NotDefined(Join(path, f.key))]
        else Check(f.value, t.children[f.key], Join(path, f.key), false)
  }

  /**
   * Walking a value against a family is walking it against the family's merged tree: the same
   * violations in the same order.
   */
  lemma {:induction false} UnionIsOneTree(v: Json, shapes: seq<Shape>, path: string, top: bool)
    ensures Violations(v, shapes, path, top) == Check(v, Merge(shapes), path, top)
    decreases v, 1, 0
  {
    if v.Obj? && AnyClosed(shapes) {
      UnionFields(v, |v.fields|, shapes, path, top);
    }
  }

  lemma {:induction false} UnionFields(v: Json, n: nat, shapes: seq<Shape>, path: string, top: bool)
    requires v.Obj? && n <= |v.fields| && AnyClosed(shapes)
    ensures FieldViolations(v, n, shapes, path, top) == CheckFields(v, n, Merge(shapes), path, top)
    decreases v, 0, n
  {
    if n > 0 {
      var f := v.fields[n - 1];
      UnionFields(v, n - 1, shapes, path, top);
      DefinedIff(shapes, f.key);
      UnionIsOneTree(f.value, Children(shapes, f.key), Join(path, f.key), false);
    }
  }

  ghost predicate Within(a: seq<Shape>, b: seq<Shape>) { forall s :: s in a ==> s in b }

  ghost predicate SameShapes(a: seq<Shape>, b: seq<Shape>) { Within(a, b) && Within(b, a) }

  /** Only which shapes are in the family matters, not their order or how often they occur. */
  lemma {:induction false} OrderAndRepetitionIrrelevant(v: Json, a: seq<Shape>, b: seq<Shape>, path: string, top: bool)
    requires SameShapes(a, b)
    ensures Violations(v, a, path, top) == Violations(v, b, path, top)
    decreases v, 1, 0
  {
    SameClosed(a, b);
    SameClosed(b, a);
    if v.Obj? && AnyClosed(a) {
      SameFields(v, |v.fields|, a, b, path, top);
    }
  }

  lemma {:induction false} SameClosed(a: seq<Shape>, b: seq<Shape>)
    requires Within(a, b)
    ensures AnyClosed(a) ==> AnyClosed(b)
  {
    if AnyClosed(a) {
      var i :| 0 <= i < |a| && a[i].Closed?;
      assert a[i] in a;
    }
  }

  lemma {:induction false} SubChildren(a: seq<Shape>, b: seq<Shape>, key: string)
    requires Within(a, b)
    ensures Within(Children(a, key), Children(b, key))
  {
    ChildrenMembers(a, key);
    ChildrenMembers(b, key);
  }

  lemma {:induction false} SameFields(v: Json, n: nat, a: seq<Shape>, b: seq<Shape>, path: string, top: bool)
    requires v.Obj? && n <= |v.fields| && SameShapes(a, b)
    ensures FieldViolations(v, n, a, path, top) == FieldViolations(v, n, b, path, top)
    decreases v, 0, n
  {
    if n > 0 {
      var f := v.fields[n - 1];
      SameFields(v, n - 1, a, b, path, top);
      SubChildren(a, b, f.key);
      SubChildren(b, a, f.key);
      var ca, cb := Children(a, f.key), Children(b, f.key);
      assert ca == [] <==> cb == [] by {
        if ca != [] { assert ca[0] in ca; }
        if cb != [] { assert cb[0] in cb; }
      }
      OrderAndRepetitionIrrelevant(f.value, ca, cb, Join(path, f.key), false);
    }
  }
}
