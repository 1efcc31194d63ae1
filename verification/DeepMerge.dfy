/** The recursive preference merge behind PUT /preferences, on arbitrary JSON trees. */
module DeepMerge {
  import opened Options

  /** A JSON object, or any other JSON value (null, boolean, number, string, array). */
  datatype Json = Leaf(text: string) | Obj(fields: map<string, Json>)

  /** The merged value: two objects merge key by key, otherwise the overlay replaces the base. */
  function Merge(base: Json, overlay: Json): Json {
    if base.Obj? && overlay.Obj? then
      Obj(map k | k in base.fields.Keys + overlay.fields.Keys ::
            if k !in overlay.fields then base.fields[k]
            else if k !in base.fields then overlay.fields[k]
            else Merge(base.fields[k], overlay.fields[k]))
    else overlay
  }

  /** The in-place loop over the overlay's items, in whatever order they come. */
  method MergeInto(base: map<string, Json>, overlay: map<string, Json>) returns (merged: map<string, Json>)
    ensures Obj(merged) == Merge(Obj(base), Obj(overlay))
    decreases Obj(overlay)
  {
    merged := base;
    var todo := overlay.Keys;
    while todo != {}
      invariant todo <= overlay.Keys
      invariant merged.Keys == base.Keys + (overlay.Keys - todo)
      invariant forall k :: k in merged ==>
        merged[k] == if k !in overlay || k in todo then base[k]
                     else if k !in base then overlay[k]
                     else Merge(base[k], overlay[k])
      decreases todo
    {
      var key :| key in todo;
      var value := overlay[key];
      if key in merged && merged[key].Obj? && value.Obj? {
        var sub := MergeInto(merged[key].fields, value.fields);
        merged := merged[key := Obj(sub)];
      } else {
        merged := merged[key := value];
      }
      todo := todo - {key};
    }
    assert Obj(merged).fields == Merge(Obj(base), Obj(overlay)).fields;
  }

  /** The value found by following a path of keys. */
  function Lookup(j: Json, path: seq<string>): Option<Json> {
    if path == [] then Some(j)
    else if j.Obj? && path[0] in j.fields then Lookup(j.fields[path[0]], path[1..])
    else None
  }

  /** Following the path in the overlay ends at a key that some object of the overlay does not have. */
  predicate Unreached(overlay: Json, path: seq<string>) {
    overlay.Obj? && path != [] && (path[0] in overlay.fields ==> Unreached(overlay.fields[path[0]], path[1..]))
  }

  /** Following the path in the overlay meets a leaf, at its end or before. */
  predicate Overwritten(overlay: Json, path: seq<string>) {
    overlay.Leaf? || (path != [] && path[0] in overlay.fields && Overwritten(overlay.fields[path[0]], path[1..]))
  }

  /** What is at every path after a merge.  A path the overlay does not reach keeps what the base had; at
      or below a leaf of the overlay the overlay wins; where the overlay has an object, that object is
      merged into the base's value if there is one.  The three cases exclude each other and leave no path
      out. */
  lemma {:induction false} MergeByPath(base: Json, overlay: Json, path: seq<string>)
    ensures Unreached(overlay, path) ==>
              !Overwritten(overlay, path) && Lookup(overlay, path) == None
              && Lookup(Merge(base, overlay), path) == Lookup(base, path)
    ensures Overwritten(overlay, path) ==> Lookup(Merge(base, overlay), path) == Lookup(overlay, path)
    ensures !Unreached(overlay, path) && !Overwritten(overlay, path) ==>
              && Lookup(overlay, path).Some? && Lookup(overlay, path).value.Obj?
              && Lookup(Merge(base, overlay), path) ==
                 Some(match Lookup(base, path)
                      case None => Lookup(overlay, path).value
                      case Some(b) => Merge(b, Lookup(overlay, path).value))
    decreases path
  {
    if path != [] && overlay.Obj? && path[0] in overlay.fields {
      var k := path[0];
      if base.Obj? && k in base.fields {
        MergeByPath(base.fields[k], overlay.fields[k], path[1..]);
      } else {
        MergeByPath(Leaf(""), overlay.fields[k], path[1..]);
        OverlayAlone(overlay.fields[k], path[1..]);
      }
    }
  }

  /** Along its own paths an overlay decides everything it reaches. */
  lemma {:induction false} OverlayAlone(overlay: Json, path: seq<string>)
    ensures Unreached(overlay, path) ==> Lookup(overlay, path) == None
    ensures !Unreached(overlay, path) && !Overwritten(overlay, path) ==> Lookup(overlay, path).Some?
    decreases path
  {
    if path != [] && overlay.Obj? && path[0] in overlay.fields {
      OverlayAlone(overlay.fields[path[0]], path[1..]);
    }
  }

  /** Sending the same overlay again changes nothing. */
  lemma {:induction false} MergeIdempotent(base: Json, overlay: Json)
    ensures Merge(Merge(base, overlay), overlay) == Merge(base, overlay)
    decreases overlay
  {
    if overlay.Obj? {
      var once := Merge(base, overlay);
      forall k | k in overlay.fields
        ensures once.fields[k] == Merge(once.fields[k], overlay.fields[k])
      {
        if base.Obj? && k in base.fields {
          MergeIdempotent(base.fields[k], overlay.fields[k]);
        } else {
          MergeIdempotent(Leaf(""), overlay.fields[k]);
        }
      }
      assert Merge(once, overlay).fields == once.fields;
    }
  }

  /** Every key path of the object a occurs in c, down to where c stops being an object. */
  predicate Covered(a: Json, c: Json) {
    a.Obj? && c.Obj? ==>
      forall k :: k in a.fields ==> k in c.fields && Covered(a.fields[k], c.fields[k])
  }

  /** An overlay absorbs a base exactly when it covers it. */
  lemma {:induction false} AbsorbsIffCovered(a: Json, c: Json)
    ensures Merge(a, c) == c <==> Covered(a, c)
  {
    if a.Obj? && c.Obj? {
      forall k | k in a.fields && k in c.fields
        ensures Merge(a.fields[k], c.fields[k]) == c.fields[k] <==> Covered(a.fields[k], c.fields[k])
      {
        AbsorbsIffCovered(a.fields[k], c.fields[k]);
      }
      var m := Merge(a, c);
      if Covered(a, c) {
        assert m.fields == c.fields;
      } else {
        var k :| k in a.fields && !(k in c.fields && Covered(a.fields[k], c.fields[k]));
        assert k in m.fields;
      }
    }
  }

  /** Wherever the three operands are object, leaf, object at one path, the third covers the first. */
  predicate Composable(a: Json, b: Json, c: Json) {
    a.Obj? && c.Obj? ==>
      if b.Leaf? then Covered(a, c)
      else forall k :: k in a.fields && k in b.fields && k in c.fields ==>
             Composable(a.fields[k], b.fields[k], c.fields[k])
  }

  /** Merging two overlays first and then applying the result is the same as applying them one after the
      other exactly when the operands are composable. */
  lemma {:induction false} AssociativeIffComposable(a: Json, b: Json, c: Json)
    ensures Merge(Merge(a, b), c) == Merge(a, Merge(b, c)) <==> Composable(a, b, c)
  {
    if a.Obj? && c.Obj? {
      if b.Leaf? {
        AbsorbsIffCovered(a, c);
      } else {
        var l, r := Merge(Merge(a, b), c), Merge(a, Merge(b, c));
        assert l.fields.Keys == r.fields.Keys;
        forall k | k in l.fields
          ensures l.fields[k] == r.fields[k] <==>
                  (k in a.fields && k in b.fields && k in c.fields ==> Composable(a.fields[k], b.fields[k], c.fields[k]))
        {
          if k in a.fields && k in b.fields && k in c.fields {
            AssociativeIffComposable(a.fields[k], b.fields[k], c.fields[k]);
          }
        }
        if Composable(a, b, c) {
          assert l.fields == r.fields;
        } else {
          var k :| k in a.fields && k in b.fields && k in c.fields && !Composable(a.fields[k], b.fields[k], c.fields[k]);
          assert l.fields[k] != r.fields[k];
        }
      }
    }
  }

  /** Some path is an object, a leaf and an object in the three operands. */
  predicate Sandwiched(a: Json, b: Json, c: Json) {
    && a.Obj?
    && c.Obj?
    && (b.Obj? ==> exists k :: k in a.fields && k in b.fields && k in c.fields && Sandwiched(a.fields[k], b.fields[k], c.fields[k]))
  }

  /** Without such a path merging is associative. */
  lemma {:induction false} AssociativeWithoutSandwich(a: Json, b: Json, c: Json)
    ensures !Sandwiched(a, b, c) ==> Composable(a, b, c)
    ensures !Sandwiched(a, b, c) ==> Merge(Merge(a, b), c) == Merge(a, Merge(b, c))
  {
    AssociativeIffComposable(a, b, c);
    if !Sandwiched(a, b, c) && a.Obj? && c.Obj? {
      forall k | k in a.fields && k in b.fields && k in c.fields
        ensures Composable(a.fields[k], b.fields[k], c.fields[k])
      {
        AssociativeWithoutSandwich(a.fields[k], b.fields[k], c.fields[k]);
      }
    }
  }

  lemma LeafBetween(x: Json, text: string, y: Json, lost: string)
    requires x.Obj? && y.Obj? && lost in x.fields && lost !in y.fields
    ensures Sandwiched(x, Leaf(text), y) && !Composable(x, Leaf(text), y)
  {
  }

  /** With such a path it can fail: {n: x}, {n: text}, {n: y} with a key of x that y does not have keeps that
      key only when the overlays are merged first. */
  lemma AssociativityFails(n: string, x: Json, text: string, y: Json, lost: string)
    requires x.Obj? && y.Obj? && lost in x.fields && lost !in y.fields
    ensures var a, b, c := Obj(map[n := x]), Obj(map[n := Leaf(text)]), Obj(map[n := y]);
            Sandwiched(a, b, c) && Merge(Merge(a, b), c) != Merge(a, Merge(b, c))
  {
    var a, b, c := Obj(map[n := x]), Obj(map[n := Leaf(text)]), Obj(map[n := y]);
    LeafBetween(x, text, y, lost);
    assert n in a.fields && n in b.fields && n in c.fields;
    assert !Composable(a.fields[n], b.fields[n], c.fields[n]);
    AssociativeIffComposable(a, b, c);
  }

  /** The stored preference row: missing until the first update, which starts from the defaults. */
  class PreferenceRow {
    const defaults: map<string, Json>
    var stored: Option<map<string, Json>>

    constructor (defaults: map<string, Json>)
      ensures this.defaults == defaults && stored == None
    {
      this.defaults := defaults;
      stored := None;
    }

    function Effective(): map<string, Json>
      reads this
    {
      if stored == None then defaults else stored.value
    }

    method Update(body: map<string, Json>)
      modifies `stored
      ensures stored.Some? && Obj(Effective()) == Merge(Obj(old(Effective())), Obj(body))
      ensures old(stored) == None ==> Obj(stored.value) == Merge(Obj(defaults), Obj(body))
      ensures old(stored).Some? ==> Obj(stored.value) == Merge(Obj(old(stored).value), Obj(body))
    {
      var current := if stored == None then defaults else stored.value;
      var merged := MergeInto(current, body);
      stored := Some(merged);
    }
  }
}
