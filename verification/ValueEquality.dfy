/** The equality that decides a comparison, and how it differs from being the same value. */
module ValueEquality {
  import opened Outcomes
  import opened FlatTrees

  predicate SameType(x: Value, y: Value) {
    && (x.Null? <==> y.Null?) && (x.Flag? <==> y.Flag?) && (x.Number? <==> y.Number?)
    && (x.Decimal? <==> y.Decimal?) && (x.Text? <==> y.Text?) && (x.Listing? <==> y.Listing?)
    && (x.Object? <==> y.Object?)
  }

  function AsNumber(v: Value): Option<real> {
    match v
    case Flag(on) => Some(if on then 1.0 else 0.0)
    case Number(n) => Some(n as real)
    case Decimal(r) => Some(r)
    case _ => None
  }

  /** The language's equality: flags, integers and decimals are equal as numbers, also inside
      lists, and the order of an object's entries does not matter. */
  predicate Equal(x: Value, y: Value)
    decreases x
  {
    match (x, y)
    case (Null, Null) => true
    case (Text(s), Text(t)) => s == t
    case (Listing(a), Listing(b)) =>
      |a| == |b| && forall i | 0 <= i < |a| :: Equal(a[i], b[i])
    case (Object(a), Object(b)) => Covers(a, b) && CoveredBy(a, b)
    case _ => AsNumber(x).Some? && AsNumber(x) == AsNumber(y)
  }

  predicate Covers(a: seq<Field>, b: seq<Field>)
    decreases a
  {
    forall f | f in a :: exists g | g in b :: f.key == g.key && Equal(f.value, g.value)
  }

  predicate CoveredBy(a: seq<Field>, b: seq<Field>)
    decreases a
  {
    forall g | g in b :: exists f | f in a :: f.key == g.key && Equal(f.value, g.value)
  }

  /** The test of a leaf: the same type and equal. */
  predicate Exactly(x: Value, y: Value) { SameType(x, y) && Equal(x, y) }

  lemma {:induction false} EqualIsSymmetric(x: Value, y: Value)
    requires Equal(x, y)
    ensures Equal(y, x)
    decreases x
  {
    match (x, y) {
      case (Listing(a), Listing(b)) =>
        forall i | 0 <= i < |a| ensures Equal(b[i], a[i]) {
          EqualIsSymmetric(a[i], b[i]);
        }
      case (Object(a), Object(b)) =>
        CoversFlips(a, b);
        CoveredByFlips(a, b);
      case _ =>
    }
  }

  lemma {:induction false} CoversFlips(a: seq<Field>, b: seq<Field>)
    requires Covers(a, b)
    ensures CoveredBy(b, a)
    decreases a
  {
    forall f | f in a ensures exists g | g in b :: g.key == f.key && Equal(g.value, f.value) {
      var g :| g in b && f.key == g.key && Equal(f.value, g.value);
      EqualIsSymmetric(f.value, g.value);
    }
  }

  lemma {:induction false} CoveredByFlips(a: seq<Field>, b: seq<Field>)
    requires CoveredBy(a, b)
    ensures Covers(b, a)
    decreases a
  {
    forall g | g in b ensures exists f | f in a :: g.key == f.key && Equal(g.value, f.value) {
      var f :| f in a && f.key == g.key && Equal(f.value, g.value);
      EqualIsSymmetric(f.value, g.value);
    }
  }

  lemma {:induction false} EqualIsReflexive(x: Value)
    ensures Equal(x, x)
    decreases x
  {
    match x {
      case Listing(items) =>
        forall i | 0 <= i < |items| ensures Equal(items[i], items[i]) {
          EqualIsReflexive(items[i]);
        }
      case Object(fields) =>
        forall f | f in fields ensures Equal(f.value, f.value) {
          EqualIsReflexive(f.value);
        }
      case _ =>
    }
  }

  // ---------------------------------------------------------------- the same value

  /** The same types at every depth, and equal. */
  predicate Identical(x: Value, y: Value)
    decreases x
  {
    match (x, y)
    case (Listing(a), Listing(b)) =>
      |a| == |b| && forall i | 0 <= i < |a| :: Identical(a[i], b[i])
    case (Object(a), Object(b)) => Repeats(a, b) && RepeatedBy(a, b)
    case _ => x == y
  }

  predicate Repeats(a: seq<Field>, b: seq<Field>)
    decreases a
  {
    forall f | f in a :: exists g | g in b :: f.key == g.key && Identical(f.value, g.value)
  }

  predicate RepeatedBy(a: seq<Field>, b: seq<Field>)
    decreases a
  {
    forall g | g in b :: exists f | f in a :: f.key == g.key && Identical(f.value, g.value)
  }

  predicate Integral(r: real) { r == r.Floor as real }

  /** The value is, or contains, a flag or a number that another type equals as well. */
  predicate HasTwin(v: Value) {
    match v
    case Flag(_) => true
    case Number(_) => true
    case Decimal(r) => Integral(r)
    case Listing(items) => exists item | item in items :: HasTwin(item)
    case Object(fields) => exists f | f in fields :: HasTwin(f.value)
    case _ => false
  }

  predicate HasTwinInside(v: Value) { (v.Listing? || v.Object?) && HasTwin(v) }

  /** The value with every such flag and number replaced. */
  function Twin(v: Value): Value {
    match v
    case Flag(on) => Number(if on then 1 else 0)
    case Number(n) => Decimal(n as real)
    case Decimal(r) => if Integral(r) then Number(r.Floor) else v
    case Listing(items) => Listing(seq(|items|, i requires 0 <= i < |items| => Twin(items[i])))
    case Object(fields) =>
      Object(seq(|fields|, i requires 0 <= i < |fields| =>
        Field(fields[i].key, Twin(fields[i].value))))
    case _ => v
  }

  /** As in every dictionary, no key occurs twice in an object. */
  predicate Keyed(v: Value) {
    && (v.Listing? ==> forall item | item in v.items :: Keyed(item))
    && (v.Object? ==> Distinct(v.fields) && forall f | f in v.fields :: Keyed(f.value))
  }

  lemma {:induction false} TwinIsEqual(v: Value)
    ensures Equal(v, Twin(v))
    decreases v
  {
    match v {
      case Listing(items) =>
        forall i | 0 <= i < |items| ensures Equal(items[i], Twin(v).items[i]) {
          TwinIsEqual(items[i]);
        }
      case Object(fields) =>
        var twins := Twin(v).fields;
        forall i | 0 <= i < |fields|
          ensures fields[i].key == twins[i].key && Equal(fields[i].value, twins[i].value)
        {
          TwinIsEqual(fields[i].value);
        }
        Pairwise(fields, twins);
      case _ =>
    }
  }

  lemma Pairwise(a: seq<Field>, b: seq<Field>)
    requires |a| == |b|
    requires forall i | 0 <= i < |a| :: a[i].key == b[i].key && Equal(a[i].value, b[i].value)
    ensures Covers(a, b) && CoveredBy(a, b)
  {
    forall f | f in a ensures exists g | g in b :: f.key == g.key && Equal(f.value, g.value) {
      var i :| 0 <= i < |a| && a[i] == f;
      assert b[i] in b;
    }
    forall g | g in b ensures exists f | f in a :: f.key == g.key && Equal(f.value, g.value) {
      var i :| 0 <= i < |b| && b[i] == g;
      assert a[i] in a;
    }
  }

  lemma {:induction false} OneEntry(fields: seq<Field>, i: nat, j: nat)
    requires Distinct(fields) && i < |fields| && j < |fields| && fields[i].key == fields[j].key
    ensures i == j
  {
    var last := |fields| - 1;
    if i < last && j < last {
      OneEntry(fields[..last], i, j);
    }
  }

  lemma {:induction false} TwinIsAnother(v: Value)
    requires Keyed(v) && HasTwin(v)
    ensures !Identical(v, Twin(v))
    decreases v
  {
    match v {
      case Listing(items) =>
        var i :| 0 <= i < |items| && HasTwin(items[i]);
        TwinIsAnother(items[i]);
      case Object(fields) =>
        var i :| 0 <= i < |fields| && HasTwin(fields[i].value);
        TwinIsAnother(fields[i].value);
        var twins := Twin(v).fields;
        forall g | g in twins && g.key == fields[i].key
          ensures !Identical(fields[i].value, g.value)
        {
          var j :| 0 <= j < |twins| && twins[j] == g;
          OneEntry(fields, i, j);
        }
        assert fields[i] in fields;
      case _ =>
    }
  }

  lemma TwinPasses(x: Value)
    requires Keyed(x) && HasTwinInside(x)
    ensures Exactly(x, Twin(x)) && !Identical(x, Twin(x))
  {
    TwinIsEqual(x);
    TwinIsAnother(x);
  }

  lemma {:induction false} OnlyOneEqual(x: Value, y: Value)
    requires Equal(x, y) && !HasTwin(x)
    ensures Identical(x, y)
    decreases x, 1
  {
    match (x, y) {
      case (Listing(a), Listing(b)) =>
        forall i | 0 <= i < |a| ensures Identical(a[i], b[i]) {
          assert a[i] in a;
          OnlyOneEqual(a[i], b[i]);
        }
      case (Object(a), Object(b)) =>
        OnlyOneForward(a, b);
        OnlyOneBackward(a, b);
      case _ =>
    }
  }

  lemma {:induction false} OnlyOneForward(a: seq<Field>, b: seq<Field>)
    requires Covers(a, b) && forall f | f in a :: !HasTwin(f.value)
    ensures Repeats(a, b)
    decreases a, 0
  {
    forall f | f in a ensures exists g | g in b :: f.key == g.key && Identical(f.value, g.value) {
      var g :| g in b && f.key == g.key && Equal(f.value, g.value);
      OnlyOneEqual(f.value, g.value);
    }
  }

  lemma {:induction false} OnlyOneBackward(a: seq<Field>, b: seq<Field>)
    requires CoveredBy(a, b) && forall f | f in a :: !HasTwin(f.value)
    ensures RepeatedBy(a, b)
    decreases a, 0
  {
    forall g | g in b ensures exists f | f in a :: f.key == g.key && Identical(f.value, g.value) {
      var f :| f in a && f.key == g.key && Equal(f.value, g.value);
      OnlyOneEqual(f.value, g.value);
    }
  }

  /** The test of a leaf accepts only the same value if and only if no flag, integer or integral
      decimal occurs inside it. */
  lemma ExactlyMeansIdentical(x: Value)
    requires Keyed(x)
    ensures (forall y :: Exactly(x, y) ==> Identical(x, y)) <==> !HasTwinInside(x)
  {
    if HasTwinInside(x) {
      TwinPasses(x);
    } else {
      forall y | Exactly(x, y) ensures Identical(x, y) {
        if x.Listing? || x.Object? {
          OnlyOneEqual(x, y);
        }
      }
    }
  }

  /** A list of one flag passes for the list of the number it stands for. */
  lemma ListsHideTypes()
    ensures Exactly(Listing([Flag(true)]), Listing([Number(1)]))
    ensures !Identical(Listing([Flag(true)]), Listing([Number(1)]))
  {
    assert !Identical([Flag(true)][0], [Number(1)][0]);
  }
}
