/** What the closed-key walk admits: schema by schema, and a mode's schema against the wildcard's union. */
module KeyAdmission {
  import opened Prelude
  import opened KeyShapes

  // ---- One schema -----------------------------------------------------------------------------

  /** The sub-schema a closed schema declares for a key. */
  function Declared(schema: Json, key: string): Option<Json> {
    match Get(schema, "properties")
    case Some(p) => Get(p, key)
    case None => None
  }

  /**
   * What the schema itself demands of keys: where it is closed, each key is an annotation, a vendor
   * extension at the top, or declared with a value that conforms to its sub-schema.
   */
  ghost predicate Conforms(v: Json, schema: Json, top: bool)
    decreases v
  {
    v.Obj? && Get(schema, "additionalProperties") == Some(Bool(false)) ==>
      forall i :: 0 <= i < |v.fields| ==> FieldConforms(v.fields[i], schema, top)
  }

  ghost predicate FieldConforms(f: Field, schema: Json, top: bool)
    decreases f
  {
    if "_" <= f.key || "$" <= f.key then true
    else if IsVendorExtension(f.key) then top
    else Declared(schema, f.key).Some? && Conforms(f.value, Declared(schema, f.key).value, false)
  }

  lemma {:induction false} ShapeChildren(props: Json, n: nat, key: string)
    requires props.Obj? && n <= |props.fields|
    ensures key in ChildShapes(props, n) <==> Find(props.fields, n, key).Some?
    ensures Find(props.fields, n, key).Some?
      ==> ChildShapes(props, n)[key] == Family([ShapeOf(Find(props.fields, n, key).value)])
    decreases n
  {
    if n > 0 {
      ShapeChildren(props, n - 1, key);
    }
  }

  lemma {:induction false} SchemaChildren(schema: Json, key: string)
    ensures AnyClosed([ShapeOf(schema)]) <==> IsClosed(schema)
    ensures IsClosed(schema) ==>
      Children([ShapeOf(schema)], key)
      == if Declared(schema, key).Some? then [ShapeOf(Declared(schema, key).value)] else []
  {
    var shape := ShapeOf(schema);
    assert [shape][0] == shape;
    assert [shape][..0] == [] && Children([], key) == [];
    assert Children([shape], key) == ChildrenOf(shape, key);
    var p := Get(schema, "properties");
    if p.Some? && p.value.Obj? {
      ShapeChildren(p.value, |p.value.fields|, key);
    }
  }

  // ---- Exactly which violations are reported --------------------------------------------------

  /** The path of a key nested under `path`: the keys on the way, joined by dots. */
  function PathTo(path: string, keys: seq<string>): string
    decreases |keys|
  {
    if keys == [] then path else PathTo(if path == "" then keys[0] else path + "." + keys[0], keys[1..])
  }

  /**
   * Following these keys down from an object, the family is closed all the way, every key before the
   * last is defined, and the last is a vendor extension below the top or is not defined.
   */
  ghost predicate Refuses(v: Json, shapes: seq<Shape>, keys: seq<string>, top: bool, vendor: bool)
    decreases |keys|
  {
    && v.Obj? && AnyClosed(shapes) && keys != [] && !("_" <= keys[0]) && !("$" <= keys[0])
    && exists i :: 0 <= i < |v.fields| && v.fields[i].key == keys[0] &&
         if |keys| == 1 then
           if vendor then IsVendorExtension(keys[0]) && !top else !IsVendorExtension(keys[0]) && Children(shapes, keys[0]) == []
         else
           && !IsVendorExtension(keys[0]) && Children(shapes, keys[0]) != []
           && Refuses(v.fields[i].value, Children(shapes, keys[0]), keys[1..], false, vendor)
  }

  ghost predicate Reported(v: Json, shapes: seq<Shape>, path: string, top: bool, x: Violation) {
    exists keys: seq<string> :: x.path == PathTo(path, keys) && Refuses(v, shapes, keys, top, x.VendorBelowTop?)
  }

  /** What the i-th field contributes. */
  ghost predicate FieldReports(v: Json, i: nat, shapes: seq<Shape>, path: string, top: bool, x: Violation)
    requires v.Obj? && i < |v.fields|
  {
    var key, here := v.fields[i].key, PathTo(path, [v.fields[i].key]);
    && !("_" <= key) && !("$" <= key)
    && if IsVendorExtension(key) then !top && x == VendorBelowTop(here)
       else if Children(shapes, key) == [] then x == NotDefined(here)
       else Reported(v.fields[i].value, Children(shapes, key), here, false, x)
  }

  lemma {:induction false} OneKey(path: string, key: string)
    ensures PathTo(path, [key]) == Join(path, key)
  {
    assert [key][1..] == [];
  }

  lemma {:induction false} DeeperKey(path: string, key: string, keys: seq<string>)
    ensures PathTo(path, [key] + keys) == PathTo(PathTo(path, [key]), keys)
  {
    OneKey(path, key);
    assert ([key] + keys)[1..] == keys;
  }

  lemma {:induction false} FieldsReport(v: Json, shapes: seq<Shape>, path: string, top: bool, x: Violation)
    requires v.Obj? && AnyClosed(shapes)
    ensures Reported(v, shapes, path, top, x) <==> exists i :: 0 <= i < |v.fields| && FieldReports(v, i, shapes, path, top, x)
  {
    if Reported(v, shapes, path, top, x) {
      var keys: seq<string> :| x.path == PathTo(path, keys) && Refuses(v, shapes, keys, top, x.VendorBelowTop?);
      RefusalIsField(v, shapes, path, top, x, keys);
    }
    if i :| 0 <= i < |v.fields| && FieldReports(v, i, shapes, path, top, x) {
      FieldIsRefusal(v, i, shapes, path, top, x);
    }
  }

  lemma {:induction false} RefusalIsField(v: Json, shapes: seq<Shape>, path: string, top: bool, x: Violation, keys: seq<string>)
    requires v.Obj? && x.path == PathTo(path, keys) && Refuses(v, shapes, keys, top, x.VendorBelowTop?)
    ensures exists i :: 0 <= i < |v.fields| && FieldReports(v, i, shapes, path, top, x)
  {
    var key, rest := keys[0], keys[1..];
    assert keys == [key] + rest;
    DeeperKey(path, key, rest);
    var i :| 0 <= i < |v.fields| && v.fields[i].key == key &&
      (|keys| > 1 ==> Children(shapes, key) != [] && Refuses(v.fields[i].value, Children(shapes, key), rest, false, x.VendorBelowTop?));
    assert FieldReports(v, i, shapes, path, top, x);
  }

  lemma {:induction false} FieldIsRefusal(v: Json, i: nat, shapes: seq<Shape>, path: string, top: bool, x: Violation)
    requires v.Obj? && AnyClosed(shapes) && i < |v.fields| && FieldReports(v, i, shapes, path, top, x)
    ensures Reported(v, shapes, path, top, x)
  {
    var key := v.fields[i].key;
    var here := PathTo(path, [key]);
    if IsVendorExtension(key) || Children(shapes, key) == [] {
      assert Refuses(v, shapes, [key], top, x.VendorBelowTop?);
    } else {
      var keys: seq<string> :|
        x.path == PathTo(here, keys) && Refuses(v.fields[i].value, Children(shapes, key), keys, false, x.VendorBelowTop?);
      DeeperKey(path, key, keys);
      assert ([key] + keys)[1..] == keys;
      assert Refuses(v, shapes, [key] + keys, top, x.VendorBelowTop?);
    }
  }

  /**
   * The walk reports a violation if and only if some keys lead down through closed and defined
   * positions to a vendor extension below the top, or to a key not defined there; and under their path.
   */
  lemma {:induction false} ReportedIff(v: Json, shapes: seq<Shape>, path: string, top: bool, x: Violation)
    ensures x in Violations(v, shapes, path, top) <==> Reported(v, shapes, path, top, x)
    decreases v, 1, 0
  {
    if v.Obj? && AnyClosed(shapes) {
      ReportedFields(v, |v.fields|, shapes, path, top, x);
      SomeReportsIff(v, |v.fields|, shapes, path, top, x);
      FieldsReport(v, shapes, path, top, x);
    }
  }

  lemma {:induction false} ReportedFields(v: Json, n: nat, shapes: seq<Shape>, path: string, top: bool, x: Violation)
    requires v.Obj? && n <= |v.fields|
    ensures x in FieldViolations(v, n, shapes, path, top) <==> SomeReports(v, n, shapes, path, top, x)
    decreases v, 0, n
  {
    if n > 0 {
      ReportedFields(v, n - 1, shapes, path, top, x);
      OneField(v, n - 1, shapes, path, top, x);
    }
  }

  lemma {:induction false} OneField(v: Json, i: nat, shapes: seq<Shape>, path: string, top: bool, x: Violation)
    requires v.Obj? && i < |v.fields|
    ensures x in FieldViolations(v, i + 1, shapes, path, top)
       <==> x in FieldViolations(v, i, shapes, path, top) || FieldReports(v, i, shapes, path, top, x)
    decreases v, 0, i
  {
    var f := v.fields[i];
    OneKey(path, f.key);
    ReportedIff(f.value, Children(shapes, f.key), Join(path, f.key), false, x);
  }

  /** One of the first n fields contributes it. */
  ghost predicate SomeReports(v: Json, n: nat, shapes: seq<Shape>, path: string, top: bool, x: Violation)
    requires v.Obj? && n <= |v.fields|
  {
    n > 0 && (FieldReports(v, n - 1, shapes, path, top, x) || SomeReports(v, n - 1, shapes, path, top, x))
  }

  lemma {:induction false} SomeReportsIff(v: Json, n: nat, shapes: seq<Shape>, path: string, top: bool, x: Violation)
    requires v.Obj? && n <= |v.fields|
    ensures SomeReports(v, n, shapes, path, top, x) <==> exists i :: 0 <= i < n && FieldReports(v, i, shapes, path, top, x)
  {
    if SomeReports(v, n, shapes, path, top, x) { var i := OneReports(v, n, shapes, path, top, x); }
    if i: nat :| i < n && FieldReports(v, i, shapes, path, top, x) { SomeReport(v, n, i, shapes, path, top, x); }
  }

  lemma {:induction false} OneReports(v: Json, n: nat, shapes: seq<Shape>, path: string, top: bool, x: Violation)
    returns (i: nat)
    requires v.Obj? && n <= |v.fields| && SomeReports(v, n, shapes, path, top, x)
    ensures i < n && FieldReports(v, i, shapes, path, top, x)
    decreases n
  {
    i := n - 1;
    if !FieldReports(v, i, shapes, path, top, x) { i := OneReports(v, n - 1, shapes, path, top, x); }
  }

  lemma {:induction false} SomeReport(v: Json, n: nat, i: nat, shapes: seq<Shape>, path: string, top: bool, x: Violation)
    requires v.Obj? && i < n <= |v.fields| && FieldReports(v, i, shapes, path, top, x)
    ensures SomeReports(v, n, shapes, path, top, x)
    decreases n
  {
    if i < n - 1 { SomeReport(v, n - 1, i, shapes, path, top, x); }
  }

  // ---- Trees: admission and coverage ----------------------------------------------------------

  ghost predicate Admits(t: Tree, v: Json, top: bool)
    decreases v
  {
    v.Obj? && t.Node? ==> forall i :: 0 <= i < |v.fields| ==> AdmitsField(t, v.fields[i], top)
  }

  ghost predicate AdmitsField(t: Tree, f: Field, top: bool)
    requires t.Node?
    decreases f
  {
    if IsAnnotation(f.key) then true
    else if IsVendorExtension(f.key) then top
    else f.key in t.children && Admits(t.children[f.key], f.value, false)
  }

  lemma {:induction false} CleanIffAdmits(t: Tree, v: Json, path: string, top: bool)
    ensures Check(v, t, path, top) == [] <==> Admits(t, v, top)
    decreases v, 1, 0
  {
    if v.Obj? && t.Node? {
      FieldsIffAdmits(t, v, |v.fields|, path, top);
    }
  }

  lemma {:induction false} FieldsIffAdmits(t: Tree, v: Json, n: nat, path: string, top: bool)
    requires v.Obj? && t.Node? && n <= |v.fields|
    ensures CheckFields(v, n, t, path, top) == [] <==> forall i :: 0 <= i < n ==> AdmitsField(t, v.fields[i], top)
    decreases v, 0, n
  {
    if n > 0 {
      var f := v.fields[n - 1];
      FieldsIffAdmits(t, v, n - 1, path, top);
      if f.key in t.children {
        CleanIffAdmits(t.children[f.key], f.value, Join(path, f.key), false);
      }
    }
  }

  lemma {:induction false} SchemaTree(schema: Json, key: string)
    ensures Merge([ShapeOf(schema)]).Node? <==> IsClosed(schema)
    ensures IsClosed(schema) ==>
      var m, d := Merge([ShapeOf(schema)]).children, Declared(schema, key);
      (key in m <==> d.Some?) && (d.Some? ==> m[key] == Merge([ShapeOf(d.value)]))
  {
    SchemaChildren(schema, key);
    DefinedIff([ShapeOf(schema)], key);
  }

  lemma {:induction false} AdmitsIffConforms(v: Json, schema: Json, top: bool)
    ensures Admits(Merge([ShapeOf(schema)]), v, top) <==> Conforms(v, schema, top)
    decreases v, 1
  {
    SchemaTree(schema, "");
    if v.Obj? && IsClosed(schema) {
      forall i | 0 <= i < |v.fields|
        ensures AdmitsField(Merge([ShapeOf(schema)]), v.fields[i], top) <==> FieldConforms(v.fields[i], schema, top)
      {
        var f := v.fields[i];
        SchemaTree(schema, f.key);
        if Declared(schema, f.key).Some? {
          AdmitsIffConforms(f.value, Declared(schema, f.key).value, false);
        }
      }
    }
  }

  /** The walk against one schema's shape finds nothing exactly when the value conforms to the schema's keys. */
  lemma {:induction false} CleanIffConforms(v: Json, schema: Json, path: string, top: bool)
    ensures Violations(v, [ShapeOf(schema)], path, top) == [] <==> Conforms(v, schema, top)
  {
    UnionIsOneTree(v, [ShapeOf(schema)], path, top);
    CleanIffAdmits(Merge([ShapeOf(schema)]), v, path, top);
    AdmitsIffConforms(v, schema, top);
  }

  /** Wherever u is closed t is closed too, and u has every key t has. */
  ghost predicate Covers(u: Tree, t: Tree)
    decreases u
  {
    u.Node? ==> t.Node? && forall k :: k in t.children && Ordinary(k) ==> k in u.children && Covers(u.children[k], t.children[k])
  }

  lemma {:induction false} CoveredIsAdmitted(u: Tree, t: Tree, v: Json, top: bool)
    requires Covers(u, t) && Admits(t, v, top)
    ensures Admits(u, v, top)
    decreases v
  {
    if v.Obj? && u.Node? {
      forall i | 0 <= i < |v.fields| ensures AdmitsField(u, v.fields[i], top) {
        var f := v.fields[i];
        assert AdmitsField(t, f, top);
        if Ordinary(f.key) {
          CoveredIsAdmitted(u.children[f.key], t.children[f.key], f.value, false);
        }
      }
    }
  }

  /** An ordinary key outside a given set. */
  lemma {:induction false} FreshKey(keys: set<string>) returns (key: string)
    ensures key !in keys && Ordinary(key)
  {
    var lengths := set k | k in keys :: |k|;
    var n := MaxOf(lengths) + 1;
    key := seq(n, _ => 'z');
    assert key[0] == 'z';
    assert forall k <- keys :: |k| in lengths;
    if n >= 2 { assert key[..2][0] == 'z'; }
  }

  lemma {:induction false} SingleField(t: Tree, k: string, w: Json, top: bool)
    requires Ordinary(k)
    ensures Admits(t, Obj([Field(k, w)]), top) <==> (t.Node? ==> k in t.children && Admits(t.children[k], w, false))
  {
    var v := Obj([Field(k, w)]);
    if t.Node? {
      assert v.fields[0] == Field(k, w);
      assert Admits(t, v, top) <==> AdmitsField(t, v.fields[0], top);
    }
  }

  /** Without coverage there is a value that shows it. */
  lemma {:induction false} UncoveredIsRefused(u: Tree, t: Tree) returns (v: Json)
    requires !Covers(u, t)
    ensures forall top: bool :: Admits(t, v, top) && !Admits(u, v, top)
    decreases u
  {
    var k: string, w: Json;
    if t.Anything? {
      k := FreshKey(u.children.Keys);
      w := Other;
    } else {
      k :| k in t.children && Ordinary(k) && !(k in u.children && Covers(u.children[k], t.children[k]));
      if k in u.children {
        w := UncoveredIsRefused(u.children[k], t.children[k]);
        assert Admits(t.children[k], w, false) && !Admits(u.children[k], w, false);
      } else {
        w := Other;
      }
    }
    v := Obj([Field(k, w)]);
    forall top: bool ensures Admits(t, v, top) && !Admits(u, v, top) {
      SingleField(t, k, w, top);
      SingleField(u, k, w, top);
    }
  }

  ghost predicate Clean(shapes: seq<Shape>, v: Json) { Violations(v, shapes, "", true) == [] }

  /** One family admits everything another admits exactly when its merged tree covers the other's. */
  lemma {:induction false} AdmitsMoreIffCovers(wide: seq<Shape>, narrow: seq<Shape>)
    ensures (forall v :: Clean(narrow, v) ==> Clean(wide, v)) <==> Covers(Merge(wide), Merge(narrow))
  {
    forall v ensures Clean(wide, v) <==> Admits(Merge(wide), v, true) {
      UnionIsOneTree(v, wide, "", true);
      CleanIffAdmits(Merge(wide), v, "", true);
    }
    forall v ensures Clean(narrow, v) <==> Admits(Merge(narrow), v, true) {
      UnionIsOneTree(v, narrow, "", true);
      CleanIffAdmits(Merge(narrow), v, "", true);
    }
    if Covers(Merge(wide), Merge(narrow)) {
      forall v | Clean(narrow, v) ensures Clean(wide, v) {
        CoveredIsAdmitted(Merge(wide), Merge(narrow), v, true);
      }
    } else {
      var v := UncoveredIsRefused(Merge(wide), Merge(narrow));
      assert Clean(narrow, v) && !Clean(wide, v);
    }
  }

  // ---- One mode and the wildcard --------------------------------------------------------------

  /** Some position that `sub` leaves open is closed in `all`. */
  ghost predicate Clash(sub: seq<Shape>, all: seq<Shape>)
    decreases Tallest(sub)
  {
    AnyClosed(all) && (AnyClosed(sub) ==> exists k :: k in Defined(sub) && Ordinary(k) && ClashBelow(sub, all, k))
  }

  ghost predicate ClashBelow(sub: seq<Shape>, all: seq<Shape>, k: string)
    requires k in Defined(sub)
    decreases Tallest(sub), 0
  {
    ChildrenShorter(sub, k);
    Clash(Children(sub, k), Children(all, k))
  }

  /** Within a larger family, coverage can only fail at a clash: no key is ever missing. */
  lemma {:induction false} CoversIffNoClash(sub: seq<Shape>, all: seq<Shape>)
    requires Within(sub, all)
    ensures Covers(Merge(all), Merge(sub)) <==> !Clash(sub, all)
    decreases Tallest(sub)
  {
    SameClosed(sub, all);
    if AnyClosed(sub) {
      var u, t := Merge(all), Merge(sub);
      forall k | k in Defined(sub) ensures k in Defined(all) && (Covers(u.children[k], t.children[k]) <==> !ClashBelow(sub, all, k)) {
        DefinedIff(sub, k);
        DefinedIff(all, k);
        SubChildren(sub, all, k);
        assert Children(sub, k)[0] in Children(sub, k);
        ChildrenShorter(sub, k);
        CoversIffNoClash(Children(sub, k), Children(all, k));
      }
    }
  }

  function ShapesOf(schemas: seq<Json>): seq<Shape> { Map(ShapeOf, schemas) }

  /**
   * Everything one mode's schema admits, the wildcard admits too, exactly when no position that the
   * mode leaves open is closed by another mode's schema.
   */
  lemma {:induction false} ModeWithinWildcardIff(schemas: seq<Json>, i: nat)
    requires i < |schemas|
    ensures (forall v :: Conforms(v, schemas[i], true) ==> Clean(ShapesOf(schemas), v))
       <==> !Clash([ShapeOf(schemas[i])], ShapesOf(schemas))
  {
    var one, all := [ShapeOf(schemas[i])], ShapesOf(schemas);
    MapIndex(ShapeOf, schemas);
    assert all[i] == one[0];
    assert Within(one, all);
    forall v ensures Clean(one, v) <==> Conforms(v, schemas[i], true) {
      CleanIffConforms(v, schemas[i], "", true);
    }
    AdmitsMoreIffCovers(all, one);
    CoversIffNoClash(one, all);
  }
}
