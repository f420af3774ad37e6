/**
 * Cell values as the editable table sees them, and the two equalities the
 * cell controller uses on them: JavaScript's strict equality (`===`, `!==`)
 * and the deep equality of `react-fast-compare`.
 *
 * Objects (dates, entity references, arrays) carry an allocation identity
 * `id`.  Primitives are compared by value, and two objects are the same only
 * when they are the same allocation.  Dafny's `==` on `Value` behaves like
 * `===` as long as one `id` always stands for the same contents, which holds
 * for values that are never mutated in place; the model does not enforce it.
 * `DeepEqual` ignores identities and compares contents.
 */
module Values {

  datatype Value =
    | Undefined
    | Null
    | Bool(b: bool)
    | Num(n: int)
    | Str(s: string)
    | Date(id: nat, time: int)
    | Reference(id: nat, entityId: string, path: string)
    | Arr(id: nat, items: seq<Value>)

  /** `a === b`: primitives by value, objects by identity. */
  predicate StrictEquals(a: Value, b: Value) {
    a == b
  }

  /** `equal(a, b)` of react-fast-compare, restricted to the values above. */
  predicate DeepEqual(a: Value, b: Value)
    ensures DeepEqual(a, b) ==> IsObject(a) == IsObject(b)
    ensures DeepEqual(a, b) ==> (a.Arr? <==> b.Arr?) && (a.Date? <==> b.Date?) && (a.Reference? <==> b.Reference?)
    ensures DeepEqual(a, b) && a.Arr? ==> b.Arr? && |a.items| == |b.items|
    ensures DeepEqual(a, b) && a.Date? ==> b.Date? && a.time == b.time
    decreases a
  {
    match (a, b)
    case (Date(_, t1), Date(_, t2)) => t1 == t2
    case (Reference(_, e1, p1), Reference(_, e2, p2)) => e1 == e2 && p1 == p2
    case (Arr(_, xs), Arr(_, ys)) =>
      |xs| == |ys| && forall i :: 0 <= i < |xs| ==> DeepEqual(xs[i], ys[i])
    case _ => a == b
  }

  predicate IsObject(a: Value) {
    a.Date? || a.Reference? || a.Arr?
  }

  /** On primitives deep equality is strict equality. */
  lemma DeepEqualOnPrimitives(a: Value, b: Value)
    requires !IsObject(a) || !IsObject(b)
    ensures DeepEqual(a, b) <==> StrictEquals(a, b)
  {
  }

  lemma {:induction false} DeepEqualReflexive(a: Value)
    ensures DeepEqual(a, a)
    decreases a
  {
    match a
    case Arr(_, xs) =>
      forall i | 0 <= i < |xs| ensures DeepEqual(xs[i], xs[i]) {
        DeepEqualReflexive(xs[i]);
      }
    case _ =>
  }

  /** Identity implies deep equality: `a === b` implies `equal(a, b)`. */
  lemma StrictImpliesDeep(a: Value, b: Value)
    requires StrictEquals(a, b)
    ensures DeepEqual(a, b)
  {
    DeepEqualReflexive(a);
  }

  /** The converse fails: two distinct allocations with the same contents. */
  lemma DeepDoesNotImplyStrict()
    ensures DeepEqual(Arr(0, [Num(1)]), Arr(1, [Num(1)]))
    ensures !StrictEquals(Arr(0, [Num(1)]), Arr(1, [Num(1)]))
  {
  }
}
