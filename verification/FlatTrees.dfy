/** Measured values of the observation comparator as trees, and their flattening into leaves
    named by dotted paths. */
module FlatTrees {

  datatype Value =
    | Null
    | Flag(on: bool)
    | Number(n: int)
    | Decimal(r: real)
    | Text(text: string)
    | Listing(items: seq<Value>)
    | Object(fields: seq<Field>)

  /** The entries of an object, in the order they were written. */
  datatype Field = Field(key: string, value: Value)

  predicate IsBranch(v: Value) { v.Object? && v.fields != [] }

  /** flatten: later entries overwrite earlier ones of the same path. */
  function Flatten(v: Value, prefix: string): map<string, Value>
    decreases v, 0
  {
    if IsBranch(v) then FlattenFields(v.fields, prefix) else map[prefix := v]
  }

  function FlattenFields(fields: seq<Field>, prefix: string): map<string, Value>
    decreases fields, 1
  {
    if fields == [] then map[]
    else
      FlattenFields(fields[..|fields| - 1], prefix)
      + Flatten(fields[|fields| - 1].value, prefix + "." + fields[|fields| - 1].key)
  }

  // ---------------------------------------------------------------- dot-free trees

  predicate DotFree(key: string) { '.' !in key }

  /** Keys without dots and, as in every dictionary, without repetition. */
  predicate Plain(v: Value)
    decreases v, 0
  {
    v.Object? ==> PlainFields(v.fields) && AllPlain(v.fields)
  }

  predicate AllPlain(fields: seq<Field>)
    decreases fields, 1
  {
    forall f | f in fields :: Plain(f.value)
  }

  predicate Distinct(fields: seq<Field>) {
    fields == []
    || (&& Distinct(fields[..|fields| - 1])
        && forall f | f in fields[..|fields| - 1] :: f.key != fields[|fields| - 1].key)
  }

  predicate PlainFields(fields: seq<Field>) {
    Distinct(fields) && forall f | f in fields :: DotFree(f.key)
  }

  /** The same tree, whatever the order of entries. */
  predicate SameTree(v: Value, w: Value)
    decreases v
  {
    if IsBranch(v) then IsBranch(w) && SameFields(v.fields, w.fields)
    else v == w
  }

  predicate SameFields(a: seq<Field>, b: seq<Field>)
    decreases a
  {
    && (forall f | f in a :: exists g | g in b :: g.key == f.key && SameTree(f.value, g.value))
    && (forall g | g in b :: exists f | f in a :: f.key == g.key)
  }

  /** A path is the given one or goes on below it. */
  predicate Under(path: string, top: string) {
    path == top || top + "." <= path
  }

  function Below(prefix: string, key: string): string { prefix + "." + key }

  lemma UnderPrefix(path: string, prefix: string, key: string)
    requires Under(path, Below(prefix, key))
    ensures |path| > |prefix| && path[..|prefix|] == prefix && path[|prefix|] == '.'
    ensures Under(path, prefix) && path != prefix
    ensures path[|prefix| + 1..] == key || (key + "." <= path[|prefix| + 1..])
  {
  }

  lemma SegmentEnds(rest: string, k: string, l: string)
    requires DotFree(l)
    requires rest == k || k + "." <= rest
    requires rest == l || l + "." <= rest
    ensures |k| >= |l|
  {
    assert k + "." <= rest ==> rest[|k|] == (k + ".")[|k|];
    assert rest[..|l|] == l;
    assert forall i | 0 <= i < |l| :: l[i] == rest[i];
  }

  /** A path leads below one dot-free key only. */
  lemma OneKey(path: string, prefix: string, k: string, l: string)
    requires DotFree(k) && DotFree(l)
    requires Under(path, Below(prefix, k)) && Under(path, Below(prefix, l))
    ensures k == l
  {
    UnderPrefix(path, prefix, k);
    UnderPrefix(path, prefix, l);
    var rest := path[|prefix| + 1..];
    SegmentEnds(rest, k, l);
    SegmentEnds(rest, l, k);
    assert k == rest[..|k|] && l == rest[..|l|];
  }

  // ---------------------------------------------------------------- what flattening keeps

  /** Every path of a value leads below its name, and there is at least one. */
  lemma {:induction false} PathsAreUnder(v: Value, prefix: string)
    ensures forall path | path in Flatten(v, prefix) :: Under(path, prefix)
    ensures exists path :: path in Flatten(v, prefix)
    ensures IsBranch(v) ==> prefix !in Flatten(v, prefix)
    decreases v, 0
  {
    if !IsBranch(v) {
      assert prefix in Flatten(v, prefix);
    } else {
      FieldPathsAreBelow(v.fields, prefix);
      assert Flatten(v, prefix) == FlattenFields(v.fields, prefix);
      if prefix in Flatten(v, prefix) {
        var f :| f in v.fields && Under(prefix, Below(prefix, f.key));
        UnderPrefix(prefix, prefix, f.key);
      }
    }
  }

  lemma {:induction false} FieldPathsAreBelow(fields: seq<Field>, prefix: string)
    ensures forall path | path in FlattenFields(fields, prefix) ::
              Under(path, prefix) && exists f :: f in fields && Under(path, Below(prefix, f.key))
    ensures fields != [] ==> exists path :: path in FlattenFields(fields, prefix)
    decreases fields, 1
  {
    if fields != [] {
      var last := fields[|fields| - 1];
      FieldPathsAreBelow(fields[..|fields| - 1], prefix);
      PathsAreUnder(last.value, Below(prefix, last.key));
      var leaves := Flatten(last.value, Below(prefix, last.key));
      var path :| path in leaves;
      assert path in FlattenFields(fields, prefix);
      forall path | path in FlattenFields(fields, prefix)
        ensures Under(path, prefix) && exists f :: f in fields && Under(path, Below(prefix, f.key))
      {
        if path in leaves {
          UnderPrefix(path, prefix, last.key);
          assert last in fields;
        }
      }
    }
  }

  /** The leaves below one key are those of its value. */
  ghost predicate HasSubtree(leaves: map<string, Value>, prefix: string, f: Field) {
    forall path | Under(path, Below(prefix, f.key)) ::
      && (path in leaves <==> path in Flatten(f.value, Below(prefix, f.key)))
      && (path in leaves ==> leaves[path] == Flatten(f.value, Below(prefix, f.key))[path])
  }

  /** Leaves below another key do not disturb a subtree. */
  lemma SubtreeKept(leaves: map<string, Value>, prefix: string, f: Field, last: Field)
    requires DotFree(f.key) && DotFree(last.key) && f.key != last.key
    requires HasSubtree(leaves, prefix, f)
    ensures HasSubtree(leaves + Flatten(last.value, Below(prefix, last.key)), prefix, f)
  {
    var more := Flatten(last.value, Below(prefix, last.key));
    PathsAreUnder(last.value, Below(prefix, last.key));
    forall path | Under(path, Below(prefix, f.key)) ensures path !in more {
      if path in more {
        OneKey(path, prefix, f.key, last.key);
      }
    }
  }

  /** The last subtree is there whole when nothing else leads below its key. */
  lemma SubtreeAdded(fields: seq<Field>, prefix: string, last: Field)
    requires DotFree(last.key) && forall g | g in fields :: DotFree(g.key) && g.key != last.key
    ensures HasSubtree(FlattenFields(fields, prefix) + Flatten(last.value, Below(prefix, last.key)),
                       prefix, last)
  {
    FieldPathsAreBelow(fields, prefix);
    forall path | Under(path, Below(prefix, last.key)) ensures path !in FlattenFields(fields, prefix) {
      if path in FlattenFields(fields, prefix) {
        var g :| g in fields && Under(path, Below(prefix, g.key));
        OneKey(path, prefix, last.key, g.key);
      }
    }
  }

  lemma {:induction false} Subtrees(fields: seq<Field>, prefix: string, f: Field)
    requires PlainFields(fields) && f in fields
    ensures HasSubtree(FlattenFields(fields, prefix), prefix, f)
    decreases fields
  {
    var init, last := fields[..|fields| - 1], fields[|fields| - 1];
    assert fields == init + [last];
    if f in init {
      Subtrees(init, prefix, f);
      SubtreeKept(FlattenFields(init, prefix), prefix, f, last);
    } else {
      SubtreeAdded(init, prefix, last);
    }
  }

  /** The leaves tell a leaf from a tree. */
  lemma SameKind(v: Value, w: Value, prefix: string)
    requires Flatten(v, prefix) == Flatten(w, prefix)
    ensures IsBranch(v) == IsBranch(w) && (!IsBranch(v) ==> v == w)
    ensures IsBranch(v) ==> FlattenFields(v.fields, prefix) == FlattenFields(w.fields, prefix)
  {
    PathsAreUnder(v, prefix);
    PathsAreUnder(w, prefix);
    assert !IsBranch(v) ==> prefix in Flatten(v, prefix) && Flatten(v, prefix)[prefix] == v;
    assert !IsBranch(w) ==> prefix in Flatten(w, prefix) && Flatten(w, prefix)[prefix] == w;
  }

  lemma SameSubtree(leaves: map<string, Value>, prefix: string, f: Field, g: Field)
    requires HasSubtree(leaves, prefix, f) && HasSubtree(leaves, prefix, g) && f.key == g.key
    ensures Flatten(f.value, Below(prefix, f.key)) == Flatten(g.value, Below(prefix, g.key))
  {
    var a, b := Flatten(f.value, Below(prefix, f.key)), Flatten(g.value, Below(prefix, g.key));
    PathsAreUnder(f.value, Below(prefix, f.key));
    PathsAreUnder(g.value, Below(prefix, g.key));
    forall path | path in a ensures path in b && a[path] == b[path] {
      assert Under(path, Below(prefix, f.key));
    }
    forall path | path in b ensures path in a {
      assert Under(path, Below(prefix, g.key));
    }
  }

  /** The entry of the same key in a tree with the same leaves has the same leaves. */
  lemma Counterpart(a: seq<Field>, b: seq<Field>, prefix: string, f: Field) returns (g: Field)
    requires PlainFields(a) && PlainFields(b)
    requires FlattenFields(a, prefix) == FlattenFields(b, prefix) && f in a
    ensures g in b && g.key == f.key
    ensures Flatten(f.value, Below(prefix, f.key)) == Flatten(g.value, Below(prefix, g.key))
  {
    Subtrees(a, prefix, f);
    PathsAreUnder(f.value, Below(prefix, f.key));
    var path :| path in Flatten(f.value, Below(prefix, f.key));
    FieldPathsAreBelow(b, prefix);
    g :| g in b && Under(path, Below(prefix, g.key));
    OneKey(path, prefix, f.key, g.key);
    Subtrees(b, prefix, g);
    SameSubtree(FlattenFields(a, prefix), prefix, f, g);
  }

  /** Trees with the same leaves have the same keys. */
  lemma SameKeys(a: seq<Field>, b: seq<Field>, prefix: string)
    requires PlainFields(a) && PlainFields(b)
    requires FlattenFields(a, prefix) == FlattenFields(b, prefix)
    ensures forall f | f in a :: exists g | g in b :: g.key == f.key
  {
    forall f | f in a ensures exists g | g in b :: g.key == f.key {
      var g := Counterpart(a, b, prefix, f);
    }
  }

  /** Flattening loses nothing of a plain tree. */
  lemma {:induction false} FlattenInjective(v: Value, w: Value, prefix: string)
    requires Plain(v) && Plain(w) && Flatten(v, prefix) == Flatten(w, prefix)
    ensures SameTree(v, w)
    decreases v
  {
    SameKind(v, w, prefix);
    if IsBranch(v) {
      FieldsInjective(v.fields, w.fields, prefix);
    }
  }

  lemma {:induction false} FieldsInjective(a: seq<Field>, b: seq<Field>, prefix: string)
    requires PlainFields(a) && PlainFields(b) && FlattenFields(a, prefix) == FlattenFields(b, prefix)
    requires AllPlain(a) && AllPlain(b)
    ensures SameFields(a, b)
    decreases a
  {
    SameKeys(b, a, prefix);
    forall f | f in a ensures exists g | g in b :: g.key == f.key && SameTree(f.value, g.value) {
      var g := Counterpart(a, b, prefix, f);
      FlattenInjective(f.value, g.value, Below(prefix, f.key));
    }
  }
}
