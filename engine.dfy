/** The evaluation context and the imperative evaluator (the `Step` methods of
    expr.go, and `Ctx`, `reduceUntilVal`, `evaluatesTo`, `seqStr` and the
    critical-expression trace of main.go). Every method is proved to compute what the
    pure functions of `Semantics` describe. */
module Engine {
  import opened Base
  import opened Types
  import opened Syntax
  import opened Values
  import opened Registry
  import opened Infer
  import opened Ops
  import S = Semantics

  /** `Ctx`: a registry that is never changed, and the logs that stepping appends to. */
  class Ctx {
    const fns: seq<Func>
    var callExprs: seq<Expr>
    var criticalExprs: seq<Expr>
    var critical: Option<Expr>

    /** The logs as one value. */
    function Log(): S.Log
      reads this
    {
      S.Log(callExprs, criticalExprs, critical)
    }

    /** A context over a registry with empty logs (`Ctx{fns, []Call{}, []Expr{}}`);
        with no functions it is `EmptyCtx()`. */
    constructor (fns: seq<Func>)
      ensures this.fns == fns && Log() == S.Log([], [], None)
    {
      this.fns := fns;
      callExprs := [];
      criticalExprs := [];
      critical := None;
    }

    /** The copy Go makes when a `Ctx` is passed by value. */
    constructor Copy(c: Ctx)
      ensures fns == c.fns && Log() == c.Log()
    {
      fns := c.fns;
      callExprs := c.callExprs;
      criticalExprs := c.criticalExprs;
      critical := c.critical;
    }
  }

  /** `e.Step(c)`. */
  method Step(e: Expr, c: Ctx) returns (r: Result<(Expr, bool)>)
    modifies c
    decreases e, 2
    ensures S.Step(c.fns, e, old(c.Log())) == S.Stepped(r, c.Log())
  {
    match e
    case Binop(_, _, _) => r := StepBinop(e, c);
    case Ternop(_, _, _) => r := StepTernop(e, c);
    case Call(_, _) => r := StepCall(e, c);
    case SeqLit(_, _) => r := StepSeqLit(e, c);
    case StructLit(_, _) => r := StepStructLit(e, c);
    case SeqSlice(_, _, _) => r := StepSlice(e, c);
    case SeqIndex(_, _) => r := StepIndex(e, c);
    case FieldAccess(_, _) => r := StepField(e, c);
    case IntLit(_) => r := Ok((e, false));
    case BoolLit(_) => r := Ok((e, false));
    case Var(_) => r := Ok((e, false));
    case SymLit(_) => r := Ok((e, false));
  }

  method StepBinop(e: Expr, c: Ctx) returns (r: Result<(Expr, bool)>)
    requires e.Binop?
    modifies c
    decreases e, 1
    ensures S.StepBinop(c.fns, e, old(c.Log())) == S.Stepped(r, c.Log())
  {
    var rl := Step(e.l, c);
    if rl.Fail? { return rl; }
    var l, didStep := rl.value.0, rl.value.1;
    var vl := ToValue(l);
    if vl.None? || didStep {
      return Ok((Binop(e.op, l, e.r), didStep));
    }
    if e.op == And {
      var b := AsBool(vl.value);
      if b.Fail? { return Fail(b.failure); }
      if !b.value { return Ok((BoolLit(false), true)); }
    }
    var rr := Step(e.r, c);
    if rr.Fail? { return rr; }
    var (rhs, didStepR) := rr.value;
    var vr := ToValue(rhs);
    if vr.None? || didStepR {
      return Ok((Binop(e.op, l, rhs), didStepR));
    }
    var v := EvalBinop(e.op, vl.value, vr.value);
    if v.Fail? { return Fail(v.failure); }
    return Ok((Lit(v.value), true));
  }

  method StepTernop(e: Expr, c: Ctx) returns (r: Result<(Expr, bool)>)
    requires e.Ternop?
    modifies c
    decreases e, 1
    ensures S.StepTernop(c.fns, e, old(c.Log())) == S.Stepped(r, c.Log())
  {
    var rc := Step(e.cond, c);
    if rc.Fail? { return rc; }
    var cond, didStep := rc.value.0, rc.value.1;
    var v := ToValue(cond);
    if v.None? || didStep {
      return Ok((Ternop(cond, e.yes, e.no), didStep));
    }
    if !v.value.Bool? { return Fail(NonBoolCondition); }
    if v.value.b {
      return Ok((e.yes, true));
    } else {
      return Ok((e.no, true));
    }
  }

  /** `Call.Step`: the argument loop works on a copy of the argument list. */
  method StepCall(e: Expr, c: Ctx) returns (r: Result<(Expr, bool)>)
    requires e.Call?
    modifies c
    decreases e, 1
    ensures S.CallArgs(c.fns, e, 0, e.args, old(c.Log())) == S.Stepped(r, c.Log())
  {
    var args := e.args;
    var didStep := false;
    var i := 0;
    while i < |args|
      invariant 0 <= i <= |args| == |e.args|
      invariant forall j | i <= j < |args| :: args[j] == e.args[j]
      invariant !didStep
      invariant S.CallArgs(c.fns, e, 0, e.args, old(c.Log())) == S.CallArgs(c.fns, e, i, args, c.Log())
    {
      var arg := args[i];
      // `didStep` still holds the previous argument's flag, which is false here.
      if ToValue(args[i]).None? || didStep {
        c.criticalExprs := c.criticalExprs + [args[i]];
      }
      var s := Step(arg, c);
      if s.Fail? { return s; }
      var x;
      x, didStep := s.value.0, s.value.1;
      args := args[i := x];
      if ToValue(args[i]).None? || didStep {
        return Ok((Call(e.name, args), didStep));
      }
      i := i + 1;
    }
    r := CallFinish(e, args, c);
  }

  method CallFinish(e: Expr, args: seq<Expr>, c: Ctx) returns (r: Result<(Expr, bool)>)
    requires e.Call?
    modifies c
    ensures S.CallFinish(c.fns, e, args, old(c.Log())) == S.Stepped(r, c.Log())
  {
    if e.name == "len" {
      if |args| == 0 { return Fail(IndexOutOfRange); }
      var v := ToValue(args[0]);
      if v.None? { return Fail(NotSeq); }
      var sq := AsSeq(v.value);
      if sq.Fail? { return Fail(sq.failure); }
      return Ok((IntLit(|sq.value.elems|), true));
    }
    c.callExprs := c.callExprs + [Call(e.name, args)];
    c.criticalExprs := c.criticalExprs + [Call(e.name, args)];
    var fun := GetFn(c.fns, e.name);
    if fun.Fail? { return Fail(fun.failure); }
    var res := fun.value.body;
    if |fun.value.vars| != |args| { return Fail(ArityMismatch(e.name)); }
    var i := 0;
    while i < |fun.value.vars|
      invariant 0 <= i <= |fun.value.vars|
      invariant S.SubstParams(res, fun.value.vars, args, i) == S.SubstParams(fun.value.body, fun.value.vars, args, 0)
    {
      res := Subst(res, fun.value.vars[i], args[i]);
      i := i + 1;
    }
    c.critical := Some(e);
    return Ok((res, true));
  }

  /** `SeqLit.Step`: the element loop works on a copy of the element list. */
  method StepSeqLit(e: Expr, c: Ctx) returns (r: Result<(Expr, bool)>)
    requires e.SeqLit?
    modifies c
    decreases e, 1
    ensures S.StepSeqLit(c.fns, e, old(c.Log())) == S.Stepped(r, c.Log())
  {
    // The source fills in a missing tag first and asks for the type again at each
    // exit; with the registry unchanged every answer is this one.
    var typ := TypeOf(c.fns, e);
    if typ.Fail? { return Fail(typ.failure); }
    var elems := e.elems;
    var anyStep := false;
    var i := 0;
    while i < |elems|
      invariant 0 <= i <= |elems| == |e.elems|
      invariant forall j | i <= j < |elems| :: elems[j] == e.elems[j]
      invariant S.SeqElems(c.fns, e, typ.value, 0, e.elems, false, old(c.Log())) ==
                S.SeqElems(c.fns, e, typ.value, i, elems, anyStep, c.Log())
    {
      var arg := elems[i];
      var s := Step(arg, c);
      if s.Fail? { return s; }
      var x, didStep := s.value.0, s.value.1;
      elems := elems[i := x];
      anyStep := anyStep || didStep;
      if ToValue(elems[i]).None? || didStep {
        return Ok((SeqLit(typ.value, elems), didStep));
      }
      i := i + 1;
    }
    return Ok((SeqLit(typ.value, elems), anyStep));
  }

  /** `StructLit.Step`, over the fields in association-list order. */
  method StepStructLit(e: Expr, c: Ctx) returns (r: Result<(Expr, bool)>)
    requires e.StructLit?
    modifies c
    decreases e, 1
    ensures S.StructFields(c.fns, e, 0, e.fields, false, old(c.Log())) == S.Stepped(r, c.Log())
  {
    var fields := e.fields;
    var anyStep := false;
    var i := 0;
    while i < |fields|
      invariant 0 <= i <= |fields| == |e.fields|
      invariant forall j | i <= j < |fields| :: fields[j] == e.fields[j]
      invariant S.StructFields(c.fns, e, 0, e.fields, false, old(c.Log())) ==
                S.StructFields(c.fns, e, i, fields, anyStep, c.Log())
    {
      var (k, v) := fields[i];
      var s := Step(v, c);
      if s.Fail? { return s; }
      var x, didStep := s.value.0, s.value.1;
      fields := fields[i := (k, x)];
      anyStep := anyStep || didStep;
      if ToValue(x).None? || didStep {
        return Ok((StructLit(e.tname, fields), anyStep));
      }
      i := i + 1;
    }
    return Ok((StructLit(e.tname, fields), anyStep));
  }

  method StepSlice(e: Expr, c: Ctx) returns (r: Result<(Expr, bool)>)
    requires e.SeqSlice?
    modifies c
    decreases e, 1
    ensures S.StepSlice(c.fns, e, old(c.Log())) == S.Stepped(r, c.Log())
  {
    var rs := Step(e.base, c);
    if rs.Fail? { return rs; }
    var s, didStep := rs.value.0, rs.value.1;
    var s2 := ToValue(s);
    if s2.None? || didStep {
      return Ok((SeqSlice(s, e.low, e.high), didStep));
    }
    if !s2.value.Seq? { return Fail(NotSeq); }
    var sq := s2.value;
    var lowRed: Option<Expr> := None;
    var low := 0;
    var high := |sq.elems|;
    if e.low.Some? {
      var rl := Step(e.low.value, c);
      if rl.Fail? { return rl; }
      var lo;
      lo, didStep := rl.value.0, rl.value.1;
      lowRed := Some(lo);
      var l := ToValue(lo);
      if l.None? || didStep {
        return Ok((SeqSlice(s, lowRed, e.high), didStep));
      }
      var li := AsInt(l.value);
      if li.Fail? { return Fail(li.failure); }
      low := li.value;
    }
    ghost var mid := c.Log();
    if e.high.Some? {
      var rh := Step(e.high.value, c);
      if rh.Fail? { return rh; }
      var hi;
      hi, didStep := rh.value.0, rh.value.1;
      var h := ToValue(hi);
      if h.None? || didStep {
        return Ok((SeqSlice(s, lowRed, Some(hi)), didStep));
      }
      var hv := AsInt(h.value);
      if hv.Fail? { return Fail(hv.failure); }
      high := hv.value;
    }
    assert S.StepSlice(c.fns, e, old(c.Log())) == S.SliceHigh(c.fns, e, s, sq, low, lowRed, mid);
    r := SliceFinish(e, sq, low, high, c);
  }

  /** The end of `SeqSlice.Step`: the bounds check, the element literals and the tag. */
  method SliceFinish(e: Expr, sq: Val, low: int, high: int, c: Ctx) returns (r: Result<(Expr, bool)>)
    requires e.SeqSlice? && sq.Seq?
    modifies c
    ensures S.SliceFinish(c.fns, e, sq, low, high, old(c.Log())) == S.Stepped(r, c.Log())
  {
    if !(0 <= low <= high <= |sq.elems|) { return Fail(SliceOutOfRange); }
    var res := [];
    var k := 0;
    while k < high - low
      invariant 0 <= k <= high - low
      invariant res == seq(k, j requires 0 <= j < k => Lit(sq.elems[low + j]))
    {
      res := res + [Lit(sq.elems[low + k])];
      k := k + 1;
    }
    if low != 0 {
      c.critical := Some(e);
    }
    var t := TypeOf(c.fns, SeqLit(sq.typ, res));
    if t.Fail? { return Fail(t.failure); }
    return Ok((SeqLit(t.value, res), true));
  }

  method StepIndex(e: Expr, c: Ctx) returns (r: Result<(Expr, bool)>)
    requires e.SeqIndex?
    modifies c
    decreases e, 1
    ensures S.StepIndex(c.fns, e, old(c.Log())) == S.Stepped(r, c.Log())
  {
    var rs := Step(e.base, c);
    if rs.Fail? { return rs; }
    var s, didStep := rs.value.0, rs.value.1;
    var sv := ToValue(s);
    if sv.None? || didStep {
      return Ok((SeqIndex(s, e.index), didStep));
    }
    var ri := Step(e.index, c);
    if ri.Fail? { return ri; }
    var i;
    i, didStep := ri.value.0, ri.value.1;
    var index := ToValue(i);
    if index.None? || didStep {
      return Ok((SeqIndex(s, i), didStep));
    }
    var sq := AsSeq(sv.value);
    if sq.Fail? { return Fail(sq.failure); }
    var k := AsInt(index.value);
    if k.Fail? { return Fail(k.failure); }
    if !(0 <= k.value < |sq.value.elems|) { return Fail(IndexOutOfRange); }
    return Ok((Lit(sq.value.elems[k.value]), true));
  }

  method StepField(e: Expr, c: Ctx) returns (r: Result<(Expr, bool)>)
    requires e.FieldAccess?
    modifies c
    decreases e, 1
    ensures S.StepField(c.fns, e, old(c.Log())) == S.Stepped(r, c.Log())
  {
    var rl := Step(e.lhs, c);
    if rl.Fail? { return rl; }
    var x, didStep := rl.value.0, rl.value.1;
    var lhs := ToValue(x);
    if didStep || lhs.None? {
      // The field access itself is dropped here, as in the source.
      return Ok((x, didStep));
    }
    if !lhs.value.Struct? { return Fail(NotStruct); }
    var res := Lookup(lhs.value.fields, e.field);
    if res.None? { return Fail(MissingField(e.field)); }
    return Ok((Lit(res.value), true));
  }

  /** `reduceUntilVal(e, c)`: step until the expression converts to a value. The source
      has no bound; `fuel` bounds the number of steps here. */
  method ReduceUntilVal(e: Expr, c: Ctx, fuel: nat) returns (r: Result<Val>)
    modifies c
    ensures S.Reduce(c.fns, e, old(c.Log()), fuel) == (r, c.Log())
  {
    var cur := e;
    var n := 0;
    while n < fuel
      invariant 0 <= n <= fuel
      invariant S.Reduce(c.fns, e, old(c.Log()), fuel) == S.Reduce(c.fns, cur, c.Log(), fuel - n)
    {
      var s := Step(cur, c);
      if s.Fail? { return Fail(s.failure); }
      cur := s.value.0;
      var v := ToValue(cur);
      if v.Some? { return Ok(v.value); }
      n := n + 1;
    }
    return Fail(OutOfFuel);
  }

  /** `evaluatesTo(e, c)`: reduces `e` on a copy of the context, so the caller's
      context, logs included, is left as it was (no `modifies` clause). */
  method EvaluatesTo(e: Expr, c: Ctx, fuel: nat) returns (r: Result<Val>)
    ensures r == S.Reduce(c.fns, e, c.Log(), fuel).0
  {
    var copy := new Ctx.Copy(c);
    r := ReduceUntilVal(e, copy, fuel);
  }

  /** The trace loop of `main`: every logged critical expression, in log order, paired
      with the value it evaluates to on its own copy of the context. The first
      evaluation that fails aborts the loop, as the source's panic does. */
  method CriticalAssertions(c: Ctx, fuel: nat) returns (r: Result<seq<(Expr, Val)>>)
    ensures r.Ok? ==> |r.value| == |c.criticalExprs|
    ensures r.Ok? ==> forall k | 0 <= k < |r.value| ::
      r.value[k].0 == c.criticalExprs[k] &&
      S.Reduce(c.fns, c.criticalExprs[k], c.Log(), fuel).0 == Ok(r.value[k].1)
    ensures r.Fail? ==> exists k | 0 <= k < |c.criticalExprs| ::
      S.Reduce(c.fns, c.criticalExprs[k], c.Log(), fuel).0 == Fail(r.failure) &&
      forall j | 0 <= j < k :: S.Reduce(c.fns, c.criticalExprs[j], c.Log(), fuel).0.Ok?
  {
    var pairs: seq<(Expr, Val)> := [];
    var i := 0;
    while i < |c.criticalExprs|
      invariant 0 <= i <= |c.criticalExprs|
      invariant |pairs| == i
      invariant forall k | 0 <= k < i ::
        pairs[k].0 == c.criticalExprs[k] &&
        S.Reduce(c.fns, c.criticalExprs[k], c.Log(), fuel).0 == Ok(pairs[k].1)
    {
      var e := c.criticalExprs[i];
      var v := EvaluatesTo(e, c, fuel);
      if v.Fail? { return Fail(v.failure); }
      pairs := pairs + [(e, v.value)];
      i := i + 1;
    }
    return Ok(pairs);
  }

  /** `seqStr(s)`: one integer literal per character, holding its code point, in
      order, as an untagged sequence literal whose tag is then inferred. */
  method SeqStr(s: string) returns (r: Expr)
    ensures r.SeqLit? && |r.elems| == |s|
    ensures forall k | 0 <= k < |s| :: r.elems[k] == IntLit(s[k] as int)
    ensures r.typ == if |s| == 0 then None else Some(TSeq(TInt()))
    ensures SeqOf(r.elems) == Ok(r)
  {
    var res := [];
    var i := 0;
    while i < |s|
      invariant 0 <= i <= |s| && |res| == i
      invariant forall k | 0 <= k < i :: res[k] == IntLit(s[k] as int)
    {
      res := res + [IntLit(s[i] as int)];
      i := i + 1;
    }
    var lit := SeqLit(None, res);
    if |s| > 0 {
      assert TypeOf([], res[0]) == Ok(Some(TInt()));
      assert FirstElemType([], lit, 0) == Ok(Some(TSeq(TInt())));
    } else {
      assert FirstElemType([], lit, 0) == Ok(None);
    }
    var e := SeqOf(res);
    return e.value;
  }
}
