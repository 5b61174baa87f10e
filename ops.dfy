/** Evaluation of binary operators on values (main.go `evalBinop`). */
module Ops {
  import opened Base
  import opened Types
  import opened Syntax
  import opened Values

  /** Go's integer division, which truncates toward zero (Dafny's `/` is Euclidean). */
  function TruncDiv(a: int, b: int): (q: int)
    requires b != 0
    ensures var rem := a - q * b;
      (if rem < 0 then -rem else rem) < (if b < 0 then -b else b) &&
      (rem == 0 || (rem < 0 <==> a < 0))
  {
    var m := if a < 0 then -a else a;
    var d := if b < 0 then -b else b;
    var q0 := m / d;
    assert m == q0 * d + m % d;
    if (a < 0) == (b < 0) then
      assert a - q0 * b == (if a < 0 then -(m % d) else m % d);
      q0
    else
      assert a - (-q0) * b == (if a < 0 then -(m % d) else m % d);
      -q0
  }

  /** `evalBinop(op, l, r)` on two values.
      - `Add`, `Sub`, `Mul`, `Div` need two integers; `Div` truncates and fails on a
        zero divisor, as Go does at run time.
      - `Concat` needs two sequences and yields the left elements then the right ones;
        the source builds the result with an empty type tag.
      - `EqEq` is structural equality.
      - `Gt`, `Lt`, `And` have no case in the source, whose default fails; this model
        ASSUMES integer comparison and boolean conjunction for them, matching the
        `bool` type that type inference gives them. */
  function EvalBinop(op: BinopKind, l: Val, r: Val): (res: Result<Val>)
    ensures op in {Add, Sub, Mul} ==> (res.Ok? <==> l.Int? && r.Int?)
    ensures op == Div ==> (res.Ok? <==> l.Int? && r.Int? && r.n != 0)
    ensures op == Add && res.Ok? ==> res.value == Int(l.n + r.n)
    ensures op == Sub && res.Ok? ==> res.value == Int(l.n - r.n)
    ensures op == Mul && res.Ok? ==> res.value == Int(l.n * r.n)
    ensures op == Div && res.Ok? ==> res.value == Int(TruncDiv(l.n, r.n))
    ensures op == Concat ==> (res.Ok? <==> l.Seq? && r.Seq?)
    ensures op == Concat && res.Ok? ==>
      res.value.Seq? && res.value.elems == l.elems + r.elems &&
      |res.value.elems| == |l.elems| + |r.elems|
    ensures op == EqEq ==> res == Ok(Bool(Equals(l, r)))
    ensures op in {Gt, Lt} ==> (res.Ok? <==> l.Int? && r.Int?)
    ensures op == Gt && res.Ok? ==> res.value == Bool(l.n > r.n)
    ensures op == Lt && res.Ok? ==> res.value == Bool(l.n < r.n)
    ensures op == And ==> (res.Ok? <==> l.Bool? && r.Bool?)
    ensures op == And && res.Ok? ==> res.value == Bool(l.b && r.b)
    ensures res.Fail? && !(op == Div && l.Int? && r.Int?) ==> res.failure == OperandMismatch
  {
    match op
    case Add => if l.Int? && r.Int? then Ok(Int(l.n + r.n)) else Fail(OperandMismatch)
    case Sub => if l.Int? && r.Int? then Ok(Int(l.n - r.n)) else Fail(OperandMismatch)
    case Mul => if l.Int? && r.Int? then Ok(Int(l.n * r.n)) else Fail(OperandMismatch)
    case Div =>
      if !(l.Int? && r.Int?) then Fail(OperandMismatch)
      else if r.n == 0 then Fail(DivisionByZero)
      else Ok(Int(TruncDiv(l.n, r.n)))
    case Concat => if l.Seq? && r.Seq? then Ok(Seq(None, l.elems + r.elems)) else Fail(OperandMismatch)
    case EqEq => Ok(Bool(Equals(l, r)))
    case Gt => if l.Int? && r.Int? then Ok(Bool(l.n > r.n)) else Fail(OperandMismatch)
    case Lt => if l.Int? && r.Int? then Ok(Bool(l.n < r.n)) else Fail(OperandMismatch)
    case And => if l.Bool? && r.Bool? then Ok(Bool(l.b && r.b)) else Fail(OperandMismatch)
  }

  /** Concatenating the empty sequence on the right gives a sequence equal to the left
      operand (only the type tag may differ, and equality ignores it). */
  lemma {:induction false} ConcatEmptyIdentity(s: Val, t: Option<Type>)
    requires s.Seq? && WellFormed(s)
    ensures EvalBinop(Concat, s, Seq(t, [])).Ok?
    ensures Equals(EvalBinop(Concat, s, Seq(t, [])).value, s)
  {
    var r := EvalBinop(Concat, s, Seq(t, [])).value;
    assert r.elems == s.elems;
    EqualsReflexive(s);
    EqualsIgnoresSeqTag(r.typ, s.typ, s.elems, s);
  }
}
