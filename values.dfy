/** Structural equality of values and the kind projections (val.go). */
module Values {
  import opened Base
  import opened Types
  import opened Syntax

  /** `s.Equals(o)`. Sequences compare by length and element-wise, ignoring the type
      tag; structs compare by field count and by looking up every field of the
      receiver in `o`, ignoring the type name; integers, booleans and symbolic values
      compare their payloads; values of different kinds are never equal. A field
      missing from `o` makes the source dereference nil; here it is "not equal". The
      source calls `Equals` on `o`'s field with the receiver's field as argument; it is
      written here from the receiver's side, which gives the same answer on
      well-formed values because `Equals` is symmetric (`EqualsSymmetric`). */
  function Equals(s: Val, o: Val): (r: bool)
    decreases s
    ensures r ==> (s.Int? && o.Int?) || (s.Bool? && o.Bool?) || (s.Seq? && o.Seq?) ||
                  (s.Struct? && o.Struct?) || (s.SymVal? && o.SymVal?)
    ensures (s.Int? && o.Int?) ==> (r <==> s.n == o.n)
    ensures (s.Bool? && o.Bool?) ==> (r <==> s.b == o.b)
    ensures (s.SymVal? && o.SymVal?) ==> (r <==> s.sym == o.sym)
    ensures (s.Seq? && o.Seq?) ==>
      (r <==> |s.elems| == |o.elems| && forall k | 0 <= k < |s.elems| :: Equals(s.elems[k], o.elems[k]))
    ensures (s.Struct? && o.Struct?) ==>
      (r <==> |s.fields| == |o.fields| && forall k | 0 <= k < |s.fields| ::
                Lookup(o.fields, s.fields[k].0).Some? &&
                Equals(s.fields[k].1, Lookup(o.fields, s.fields[k].0).value))
  {
    match s
    case Seq(_, elems) =>
      o.Seq? && |o.elems| == |elems| &&
      forall k | 0 <= k < |elems| :: Equals(elems[k], o.elems[k])
    case Int(n) => o.Int? && o.n == n
    case SymVal(sym) => o.SymVal? && o.sym == sym
    case Bool(b) => o.Bool? && o.b == b
    case Struct(_, fields) =>
      o.Struct? && |o.fields| == |fields| &&
      forall k | 0 <= k < |fields| ::
        var w := Lookup(o.fields, fields[k].0);
        w.Some? && Equals(fields[k].1, w.value)
  }

  /** Values whose structs have distinct field names at every level, as Go maps do. */
  predicate WellFormed(v: Val)
    decreases v
  {
    match v
    case Seq(_, elems) => forall k | 0 <= k < |elems| :: WellFormed(elems[k])
    case Struct(_, fields) =>
      DistinctKeys(fields) && forall k | 0 <= k < |fields| :: WellFormed(fields[k].1)
    case _ => true
  }

  /** `Equals` is reflexive on every well-formed value. */
  lemma {:induction false} EqualsReflexive(v: Val)
    requires WellFormed(v)
    ensures Equals(v, v)
    decreases v
  {
    match v
    case Seq(_, elems) =>
      forall k | 0 <= k < |elems| ensures Equals(elems[k], elems[k]) {
        EqualsReflexive(elems[k]);
      }
    case Struct(_, fields) =>
      forall k | 0 <= k < |fields|
        ensures Lookup(fields, fields[k].0) == Some(fields[k].1) && Equals(fields[k].1, fields[k].1)
      {
        LookupDistinct(fields, k);
        EqualsReflexive(fields[k].1);
      }
    case _ =>
  }

  /** `Equals` is symmetric on well-formed values, so comparing struct fields from the
      receiver's side or from the other side gives the same answer. */
  lemma {:induction false} EqualsSymmetric(a: Val, b: Val)
    requires WellFormed(a) && WellFormed(b)
    ensures Equals(a, b) == Equals(b, a)
    decreases a
  {
    match a
    case Seq(_, elems) =>
      if b.Seq? && |b.elems| == |elems| {
        forall k | 0 <= k < |elems| ensures Equals(elems[k], b.elems[k]) == Equals(b.elems[k], elems[k]) {
          EqualsSymmetric(elems[k], b.elems[k]);
        }
      }
    case Struct(_, fields) =>
      if b.Struct? && |b.fields| == |fields| {
        if Equals(a, b) {
          StructEqualsFlip(a, b);
        }
        if Equals(b, a) {
          StructEqualsFlipBack(a, b);
        }
      }
    case _ =>
  }

  /** Struct case of symmetry, from `Equals(a, b)` to `Equals(b, a)`. */
  lemma {:induction false} StructEqualsFlip(a: Val, b: Val)
    requires a.Struct? && b.Struct? && WellFormed(a) && WellFormed(b)
    requires Equals(a, b)
    ensures Equals(b, a)
    decreases a, 0
  {
    SameKeys(a.fields, b.fields);
    forall j | 0 <= j < |b.fields|
      ensures Lookup(a.fields, b.fields[j].0).Some? &&
              Equals(b.fields[j].1, Lookup(a.fields, b.fields[j].0).value)
    {
      var key := b.fields[j].0;
      var w := Lookup(a.fields, key).value;
      var i :| 0 <= i < |a.fields| && a.fields[i] == (key, w);
      LookupDistinct(b.fields, j);
      assert Equals(a.fields[i].1, b.fields[j].1);
      EqualsSymmetric(a.fields[i].1, b.fields[j].1);
    }
  }

  /** Struct case of symmetry, from `Equals(b, a)` to `Equals(a, b)`. */
  lemma {:induction false} StructEqualsFlipBack(a: Val, b: Val)
    requires a.Struct? && b.Struct? && WellFormed(a) && WellFormed(b)
    requires Equals(b, a)
    ensures Equals(a, b)
    decreases a, 0
  {
    SameKeys(b.fields, a.fields);
    forall i | 0 <= i < |a.fields|
      ensures Lookup(b.fields, a.fields[i].0).Some? &&
              Equals(a.fields[i].1, Lookup(b.fields, a.fields[i].0).value)
    {
      var key := a.fields[i].0;
      var w := Lookup(b.fields, key).value;
      var j :| 0 <= j < |b.fields| && b.fields[j] == (key, w);
      LookupDistinct(a.fields, i);
      assert Equals(b.fields[j].1, a.fields[i].1);
      EqualsSymmetric(a.fields[i].1, b.fields[j].1);
    }
  }

  /** Sequence equality ignores the type tag, on either side. */
  lemma EqualsIgnoresSeqTag(t1: Option<Type>, t2: Option<Type>, elems: seq<Val>, o: Val)
    ensures Equals(Seq(t1, elems), o) == Equals(Seq(t2, elems), o)
    ensures Equals(o, Seq(t1, elems)) == Equals(o, Seq(t2, elems))
  {
  }

  /** Struct equality ignores the type name, on either side. */
  lemma EqualsIgnoresStructName(n1: string, n2: string, fields: seq<(string, Val)>, o: Val)
    ensures Equals(Struct(n1, fields), o) == Equals(Struct(n2, fields), o)
    ensures Equals(o, Struct(n1, fields)) == Equals(o, Struct(n2, fields))
  {
  }

  /** `asSeq`: the sequence itself, or a failure for any other kind. */
  function AsSeq(v: Val): (r: Result<Val>)
    ensures r.Ok? <==> v.Seq?
    ensures r.Ok? ==> r.value == v
    ensures r.Fail? ==> r.failure == NotSeq
  {
    if v.Seq? then Ok(v) else Fail(NotSeq)
  }

  /** `asInt`: the integer payload, or a failure for any other kind. */
  function AsInt(v: Val): (r: Result<int>)
    ensures r.Ok? <==> v.Int?
    ensures r.Ok? ==> v == Int(r.value)
    ensures r.Fail? ==> r.failure == NotInt
  {
    if v.Int? then Ok(v.n) else Fail(NotInt)
  }

  /** `asBool`: the boolean payload, or a failure for any other kind. */
  function AsBool(v: Val): (r: Result<bool>)
    ensures r.Ok? <==> v.Bool?
    ensures r.Ok? ==> v == Bool(r.value)
    ensures r.Fail? ==> r.failure == NotBool
  {
    if v.Bool? then Ok(v.b) else Fail(NotBool)
  }
}
