/**
 * The pricing console's structural JSON equality (services/pricing-console, `sameJson`): what it decides on every pair of
 * JSON values, and exactly which values it decides wrongly.
 */
module JsonEquality {
  import opened Common

  /** A JSON value. An object is its own properties, in no order, so `==` is equality up to key order. */
  datatype Json =
    | Null
    | Bool(b: bool)
    | Number(n: real)
    | Text(s: string)
    | Array(items: seq<Json>)
    | Object(fields: map<string, Json>)

  const PROTO := "__proto__"

  /** The prototype object has no enumerable own keys, so it compares as the empty object. */
  predicate SameAsPrototype(a: Json) {
    a == Object(map[])
  }

  /**
   * `sameJson`. The other object's property is read by name: an own one, or for `__proto__` otherwise the shared
   * prototype object, or for anything else a function or undefined, which equals no JSON value.
   */
  predicate SameJson(a: Json, b: Json)
    decreases a
  {
    if a.Array? && b.Array? then
      |a.items| == |b.items| && forall i | 0 <= i < |a.items| :: SameJson(a.items[i], b.items[i])
    else if a.Object? && b.Object? then
      |a.fields| == |b.fields| && forall k | k in a.fields ::
        if k in b.fields then SameJson(a.fields[k], b.fields[k]) else k == PROTO && SameAsPrototype(a.fields[k])
    else a == b
  }

  /** Somewhere in the value an object has an own `__proto__` that is the empty object. */
  predicate Poisoned(a: Json)
    decreases a
  {
    match a
    case Array(xs) => exists i | 0 <= i < |xs| :: Poisoned(xs[i])
    case Object(f) => (PROTO in f && f[PROTO] == Object(map[])) || exists k | k in f :: Poisoned(f[k])
    case _ => false
  }

  lemma {:induction false} SameJsonReflexive(a: Json)
    ensures SameJson(a, a)
    decreases a
  {
    if a.Array? {
      forall i | 0 <= i < |a.items| ensures SameJson(a.items[i], a.items[i]) { SameJsonReflexive(a.items[i]); }
    } else if a.Object? {
      forall k | k in a.fields ensures SameJson(a.fields[k], a.fields[k]) { SameJsonReflexive(a.fields[k]); }
    }
  }

  lemma KeysOfOneSize<T>(a: set<T>, b: set<T>)
    requires a <= b && |a| == |b|
    ensures a == b
    decreases a
  {
    if a != {} {
      var x :| x in a;
      KeysOfOneSize(a - {x}, b - {x});
    } else {
      assert b == {};
    }
  }

  /** On a value with no such property, the answer is exactly JSON equality, whatever the other value. */
  lemma {:induction false} SameJsonIsEquality(a: Json, b: Json)
    requires !Poisoned(a)
    ensures SameJson(a, b) <==> a == b
    decreases a
  {
    if a == b { SameJsonReflexive(a); }
    if SameJson(a, b) {
      if a.Array? && b.Array? {
        forall i | 0 <= i < |a.items| ensures a.items[i] == b.items[i] { SameJsonIsEquality(a.items[i], b.items[i]); }
      } else if a.Object? && b.Object? {
        forall k | k in a.fields ensures k in b.fields && a.fields[k] == b.fields[k] {
          assert !Poisoned(a.fields[k]);
          if k in b.fields { SameJsonIsEquality(a.fields[k], b.fields[k]); }
        }
        KeysOfOneSize(a.fields.Keys, b.fields.Keys);
      }
    }
  }

  /** A key the object does not have. */
  ghost function LongerThan(keys: set<string>): (k: string)
    ensures k !in keys && |k| > 0
  {
    var n := LongestIn(keys);
    seq(n + 1, (_: nat) => 'x')
  }

  ghost function LongestIn(keys: set<string>): (n: nat)
    ensures forall k | k in keys :: |k| <= n
  {
    if keys == {} then 0 else
      var k :| k in keys;
      var rest := LongestIn(keys - {k});
      if |k| > rest then |k| else rest
  }

  /** The object with its `__proto__` swapped for another key: as many keys, not the same value, yet called equal. */
  ghost function Swapped(fields: map<string, Json>): map<string, Json> {
    (fields - {PROTO})[LongerThan(fields.Keys) := Null]
  }

  lemma SwappedFools(fields: map<string, Json>)
    requires PROTO in fields && fields[PROTO] == Object(map[])
    ensures SameJson(Object(fields), Object(Swapped(fields))) && Object(fields) != Object(Swapped(fields))
  {
    var other := Swapped(fields);
    var key := LongerThan(fields.Keys);
    assert other.Keys == fields.Keys - {PROTO} + {key};
    assert |other| == |other.Keys| && |fields| == |fields.Keys|;
    assert key in other && key !in fields;
    forall k | k in fields
      ensures if k in other then SameJson(fields[k], other[k]) else k == PROTO && SameAsPrototype(fields[k])
    {
      SameJsonReflexive(fields[k]);
    }
  }

  /** Every other value has one it is wrongly called equal to. */
  lemma {:induction false} PoisonedIsFooled(a: Json) returns (b: Json)
    requires Poisoned(a)
    ensures SameJson(a, b) && a != b
    decreases a
  {
    if a.Array? {
      var i :| 0 <= i < |a.items| && Poisoned(a.items[i]);
      var item := PoisonedIsFooled(a.items[i]);
      b := Array(a.items[i := item]);
      forall j | 0 <= j < |a.items| ensures SameJson(a.items[j], b.items[j]) { SameJsonReflexive(a.items[j]); }
      assert a.items[i] != b.items[i];
    } else if PROTO in a.fields && a.fields[PROTO] == Object(map[]) {
      SwappedFools(a.fields);
      b := Object(Swapped(a.fields));
    } else {
      var k :| k in a.fields && Poisoned(a.fields[k]);
      var field := PoisonedIsFooled(a.fields[k]);
      b := Object(a.fields[k := field]);
      assert b.fields.Keys == a.fields.Keys && |b.fields| == |b.fields.Keys| && |a.fields| == |a.fields.Keys|;
      forall j | j in a.fields ensures SameJson(a.fields[j], b.fields[j]) { SameJsonReflexive(a.fields[j]); }
      assert a.fields[k] != b.fields[k];
    }
  }

  /**
   * `sameJson(a, b)` is JSON equality for every `b` if and only if `a` nowhere holds an empty own `__proto__`; and even
   * then an array equals only arrays and an object only objects.
   */
  lemma SameJsonIsExactlyEqualityUnlessPoisoned(a: Json)
    ensures (forall b :: SameJson(a, b) <==> a == b) <==> !Poisoned(a)
    ensures forall b | SameJson(a, b) :: (a.Array? <==> b.Array?) && (a.Object? <==> b.Object?)
  {
    if Poisoned(a) {
      var fooled := PoisonedIsFooled(a);
      assert !(SameJson(a, fooled) <==> a == fooled);
    } else {
      forall b ensures SameJson(a, b) <==> a == b { SameJsonIsEquality(a, b); }
    }
  }

  /** So on values without it the relation is an equivalence. */
  lemma SameJsonIsAnEquivalence(a: Json, b: Json, c: Json)
    requires !Poisoned(a) && !Poisoned(b)
    ensures SameJson(a, a)
    ensures SameJson(a, b) ==> SameJson(b, a)
    ensures SameJson(a, b) && SameJson(b, c) ==> SameJson(a, c)
  {
    SameJsonIsEquality(a, a);
    SameJsonIsEquality(a, b);
    SameJsonIsEquality(b, a);
    SameJsonIsEquality(b, c);
    SameJsonIsEquality(a, c);
  }

  /** In general it is not even symmetric: `{"__proto__": {}}` against `{"x": 1}`. */
  lemma NotSymmetric()
    ensures var a, b := Object(map[PROTO := Object(map[])]), Object(map["x" := Number(1.0)]);
      SameJson(a, b) && !SameJson(b, a)
  {
    var f, g := map[PROTO := Object(map[])], map["x" := Number(1.0)];
    assert |f| == 1 && |g| == 1;
    assert "x" in g && "x" !in f && "x" != PROTO;
    assert forall k | k in f :: k == PROTO && k !in g;
  }

  // ------------------------------------------------------------------------------------------
  // Values a strict schema lets through
  // ------------------------------------------------------------------------------------------

  /** What a schema says of a value's form: a strict object has exactly the keys it names. */
  datatype Shape =
    | Scalar
    | List(item: Shape)
    | Strict(keys: map<string, Shape>)
    | Either(left: Shape, right: Shape)

  predicate Fits(shape: Shape, a: Json)
    decreases shape
  {
    match shape
    case Scalar => !a.Array? && !a.Object?
    case List(item) => a.Array? && forall i | 0 <= i < |a.items| :: Fits(item, a.items[i])
    case Strict(keys) => a.Object? && a.fields.Keys == keys.Keys && forall k | k in keys :: Fits(keys[k], a.fields[k])
    case Either(left, right) => Fits(left, a) || Fits(right, a)
  }

  predicate NamesNoPrototype(shape: Shape)
    decreases shape
  {
    match shape
    case Scalar => true
    case List(item) => NamesNoPrototype(item)
    case Strict(keys) => PROTO !in keys && forall k | k in keys :: NamesNoPrototype(keys[k])
    case Either(left, right) => NamesNoPrototype(left) && NamesNoPrototype(right)
  }

  /** A schema that nowhere names `__proto__` lets no value through that `sameJson` decides wrongly. */
  lemma {:induction false} FittingIsNotPoisoned(shape: Shape, a: Json)
    requires NamesNoPrototype(shape) && Fits(shape, a)
    ensures !Poisoned(a)
    decreases shape
  {
    match shape
    case Scalar =>
    case List(item) =>
      forall i | 0 <= i < |a.items| ensures !Poisoned(a.items[i]) { FittingIsNotPoisoned(item, a.items[i]); }
    case Strict(keys) =>
      forall k | k in a.fields ensures !Poisoned(a.fields[k]) { FittingIsNotPoisoned(keys[k], a.fields[k]); }
    case Either(left, right) =>
      if Fits(left, a) { FittingIsNotPoisoned(left, a); } else { FittingIsNotPoisoned(right, a); }
  }
}
