/** Small-step reduction (the `Step` method of every node kind in expr.go) as a pure
    function of the registry, the expression and the context's logs. The imperative
    `Engine.Step` is proved to compute exactly this. */
module Semantics {
  import opened Base
  import opened Types
  import opened Syntax
  import opened Values
  import opened Registry
  import opened Infer
  import opened Ops

  /** The part of the evaluation context that stepping changes: the log of resolved
      calls (`callExprs`), the log of critical expressions (`criticalExprs`) and the
      "last critical expression" slot (`critical`). */
  datatype Log = Log(calls: seq<Expr>, crits: seq<Expr>, critical: Option<Expr>)

  /** Outcome of one step: the new expression and the progress flag, or the failure
      that aborts evaluation; and the logs as they stand afterwards. */
  datatype Stepped = Stepped(res: Result<(Expr, bool)>, log: Log)

  /** The call log and the critical log of `after` extend those of `before`: stepping
      only ever appends to them. */
  predicate Grows(before: Log, after: Log) {
    before.calls <= after.calls && before.crits <= after.crits
  }

  function Done(e: Expr, progress: bool, log: Log): Stepped {
    Stepped(Ok((e, progress)), log)
  }

  function Abort(f: Failure, log: Log): Stepped {
    Stepped(Fail(f), log)
  }

  /** One reduction step of `e`. */
  function Step(fns: seq<Func>, e: Expr, log: Log): (r: Stepped)
    ensures Grows(log, r.log)
    decreases e, 2
  {
    match e
    case Binop(_, _, _) => StepBinop(fns, e, log)
    case Ternop(_, _, _) => StepTernop(fns, e, log)
    case Call(_, _) => CallArgs(fns, e, 0, e.args, log)
    case SeqLit(_, _) => StepSeqLit(fns, e, log)
    case StructLit(_, _) => StructFields(fns, e, 0, e.fields, false, log)
    case SeqSlice(_, _, _) => StepSlice(fns, e, log)
    case SeqIndex(_, _) => StepIndex(fns, e, log)
    case FieldAccess(_, _) => StepField(fns, e, log)
    case IntLit(_) => Done(e, false, log)
    case BoolLit(_) => Done(e, false, log)
    case Var(_) => Done(e, false, log)
    case SymLit(_) => Done(e, false, log)
  }

  /** `Binop.Step`: the left operand first; `And` with a `false` left value
      short-circuits; the operator is evaluated only when both operands are values. */
  function StepBinop(fns: seq<Func>, e: Expr, log: Log): (r: Stepped)
    ensures Grows(log, r.log)
    requires e.Binop?
    decreases e, 1
  {
    var s1 := Step(fns, e.l, log);
    if s1.res.Fail? then s1
    else
      var (l, p) := s1.res.value;
      var vl := ToValue(l);
      if vl.None? || p then Done(Binop(e.op, l, e.r), p, s1.log)
      else if e.op == And && AsBool(vl.value).Fail? then Abort(AsBool(vl.value).failure, s1.log)
      else if e.op == And && !AsBool(vl.value).value then Done(BoolLit(false), true, s1.log)
      else
        var s2 := Step(fns, e.r, s1.log);
        if s2.res.Fail? then s2
        else
          var (r, p2) := s2.res.value;
          var vr := ToValue(r);
          if vr.None? || p2 then Done(Binop(e.op, l, r), p2, s2.log)
          else
            match EvalBinop(e.op, vl.value, vr.value)
            case Fail(f) => Abort(f, s2.log)
            case Ok(v) => Done(Lit(v), true, s2.log)
  }

  /** `Ternop.Step`: only the condition is stepped; a boolean condition value selects
      the unreduced branch. */
  function StepTernop(fns: seq<Func>, e: Expr, log: Log): (r: Stepped)
    ensures Grows(log, r.log)
    requires e.Ternop?
    decreases e, 1
  {
    var s1 := Step(fns, e.cond, log);
    if s1.res.Fail? then s1
    else
      var (c, p) := s1.res.value;
      var v := ToValue(c);
      if v.None? || p then Done(Ternop(c, e.yes, e.no), p, s1.log)
      else if !v.value.Bool? then Abort(NonBoolCondition, s1.log)
      else Done(if v.value.b then e.yes else e.no, true, s1.log)
  }

  /** The argument loop of `Call.Step` from argument `i` on; `args` holds the
      arguments as stepped so far. Each argument that is not a value is logged as
      critical before it is stepped; the loop stops at the first argument that makes
      progress or stays a non-value. */
  function CallArgs(fns: seq<Func>, e: Expr, i: nat, args: seq<Expr>, log: Log): (r: Stepped)
    ensures Grows(log, r.log)
    requires e.Call? && i <= |e.args| && |args| == |e.args|
    decreases e, 0, |e.args| - i
  {
    if i == |e.args| then CallFinish(fns, e, args, log)
    else
      var a := e.args[i];
      var log1 := if ToValue(a).None? then log.(crits := log.crits + [a]) else log;
      var s := Step(fns, a, log1);
      if s.res.Fail? then s
      else
        var (x, p) := s.res.value;
        if ToValue(x).None? || p then Done(Call(e.name, args[i := x]), p, s.log)
        else CallArgs(fns, e, i + 1, args[i := x], s.log)
  }

  /** The rest of `Call.Step` once every argument is a value: `len` answers the
      element count; any other call is logged as a resolved and as a critical call,
      looked up, checked for arity and unfolded, and the original call expression
      becomes the last critical expression. */
  function CallFinish(fns: seq<Func>, e: Expr, args: seq<Expr>, log: Log): (r: Stepped)
    ensures Grows(log, r.log)
    requires e.Call?
  {
    if e.name == "len" then
      if |args| == 0 then Abort(IndexOutOfRange, log)
      else
        match ToValue(args[0])
        case None => Abort(NotSeq, log)
        case Some(v) =>
          (match AsSeq(v)
           case Fail(f) => Abort(f, log)
           case Ok(sq) => Done(IntLit(|sq.elems|), true, log))
    else
      var call := Call(e.name, args);
      var log1 := log.(calls := log.calls + [call], crits := log.crits + [call]);
      match GetFn(fns, e.name)
      case Fail(f) => Abort(f, log1)
      case Ok(fn) =>
        if |fn.vars| != |args| then Abort(ArityMismatch(e.name), log1)
        else Done(SubstParams(fn.body, fn.vars, args, 0), true, log1.(critical := Some(e)))
  }

  /** The parameter loop of `Call.Step` from parameter `i` on: parameters are
      substituted one after another, so a later substitution also reaches into the
      arguments placed by earlier ones. */
  function SubstParams(body: Expr, vars: seq<string>, args: seq<Expr>, i: nat): Expr
    requires |vars| == |args| && i <= |vars|
    decreases |vars| - i
  {
    if i == |vars| then body
    else SubstParams(Subst(body, vars[i], args[i]), vars, args, i + 1)
  }

  /** `SeqLit.Step`: the type tag is inferred first (when missing); elements are
      stepped left to right until one makes progress or stays a non-value. */
  function StepSeqLit(fns: seq<Func>, e: Expr, log: Log): (r: Stepped)
    ensures Grows(log, r.log)
    requires e.SeqLit?
    decreases e, 1
  {
    match TypeOf(fns, e)
    case Fail(f) => Abort(f, log)
    case Ok(t) => SeqElems(fns, e, t, 0, e.elems, false, log)
  }

  /** The element loop of `SeqLit.Step` from element `i` on. The early exit returns
      the current element's flag, the full pass returns `anyStep`. */
  function SeqElems(fns: seq<Func>, e: Expr, t: Option<Type>, i: nat, elems: seq<Expr>,
                    anyStep: bool, log: Log): (r: Stepped)
    ensures Grows(log, r.log)
    requires e.SeqLit? && i <= |e.elems| && |elems| == |e.elems|
    decreases e, 0, |e.elems| - i
  {
    if i == |e.elems| then Done(SeqLit(t, elems), anyStep, log)
    else
      var s := Step(fns, e.elems[i], log);
      if s.res.Fail? then s
      else
        var (x, p) := s.res.value;
        if ToValue(x).None? || p then Done(SeqLit(t, elems[i := x]), p, s.log)
        else SeqElems(fns, e, t, i + 1, elems[i := x], anyStep || p, s.log)
  }

  /** The field loop of `StructLit.Step` from field `i` on, in association-list order.
      Both exits return `anyStep`. */
  function StructFields(fns: seq<Func>, e: Expr, i: nat, fields: seq<(string, Expr)>,
                        anyStep: bool, log: Log): (r: Stepped)
    ensures Grows(log, r.log)
    requires e.StructLit? && i <= |e.fields| && |fields| == |e.fields|
    decreases e, 0, |e.fields| - i
  {
    if i == |e.fields| then Done(StructLit(e.tname, fields), anyStep, log)
    else
      var s := Step(fns, e.fields[i].1, log);
      if s.res.Fail? then s
      else
        var (x, p) := s.res.value;
        var fields' := fields[i := (e.fields[i].0, x)];
        if ToValue(x).None? || p then Done(StructLit(e.tname, fields'), anyStep || p, s.log)
        else StructFields(fns, e, i + 1, fields', anyStep || p, s.log)
  }

  /** `SeqSlice.Step`: the base sequence first, then the low bound, then the high bound. */
  function StepSlice(fns: seq<Func>, e: Expr, log: Log): (r: Stepped)
    ensures Grows(log, r.log)
    requires e.SeqSlice?
    decreases e, 1
  {
    var s1 := Step(fns, e.base, log);
    if s1.res.Fail? then s1
    else
      var (s, p) := s1.res.value;
      var sv := ToValue(s);
      if sv.None? || p then Done(SeqSlice(s, e.low, e.high), p, s1.log)
      else if !sv.value.Seq? then Abort(NotSeq, s1.log)
      else if e.low.None? then SliceHigh(fns, e, s, sv.value, 0, None, s1.log)
      else
        var s2 := Step(fns, e.low.value, s1.log);
        if s2.res.Fail? then s2
        else
          var (lo, p2) := s2.res.value;
          var lv := ToValue(lo);
          if lv.None? || p2 then Done(SeqSlice(s, Some(lo), e.high), p2, s2.log)
          else
            match AsInt(lv.value)
            case Fail(f) => Abort(f, s2.log)
            case Ok(low) => SliceHigh(fns, e, s, sv.value, low, Some(lo), s2.log)
  }

  /** The high-bound part of `SeqSlice.Step`; `lowRed` is the stepped low bound, absent
      when the slice has none. */
  function SliceHigh(fns: seq<Func>, e: Expr, s: Expr, sq: Val, low: int, lowRed: Option<Expr>,
                     log: Log): (r: Stepped)
    ensures Grows(log, r.log)
    requires e.SeqSlice? && sq.Seq?
    decreases e, 0
  {
    if e.high.None? then SliceFinish(fns, e, sq, low, |sq.elems|, log)
    else
      var s3 := Step(fns, e.high.value, log);
      if s3.res.Fail? then s3
      else
        var (hi, p3) := s3.res.value;
        var hv := ToValue(hi);
        if hv.None? || p3 then Done(SeqSlice(s, lowRed, Some(hi)), p3, s3.log)
        else
          match AsInt(hv.value)
          case Fail(f) => Abort(f, s3.log)
          case Ok(high) => SliceFinish(fns, e, sq, low, high, s3.log)
  }

  /** The end of `SeqSlice.Step`: the literals of elements `[low, high)`, as a sequence
      literal with the base's tag (or the inferred one). A slice whose low bound is not
      0 becomes the last critical expression. */
  function SliceFinish(fns: seq<Func>, e: Expr, sq: Val, low: int, high: int, log: Log): (r: Stepped)
    ensures Grows(log, r.log)
    requires e.SeqSlice? && sq.Seq?
  {
    if !(0 <= low <= high <= |sq.elems|) then Abort(SliceOutOfRange, log)
    else
      var res := seq(high - low, k requires 0 <= k < high - low => Lit(sq.elems[low + k]));
      var log1 := if low != 0 then log.(critical := Some(e)) else log;
      match TypeOf(fns, SeqLit(sq.typ, res))
      case Fail(f) => Abort(f, log1)
      case Ok(t) => Done(SeqLit(t, res), true, log1)
  }

  /** `SeqIndex.Step`: the base sequence first, then the index; the element's literal. */
  function StepIndex(fns: seq<Func>, e: Expr, log: Log): (r: Stepped)
    ensures Grows(log, r.log)
    requires e.SeqIndex?
    decreases e, 1
  {
    var s1 := Step(fns, e.base, log);
    if s1.res.Fail? then s1
    else
      var (s, p) := s1.res.value;
      var sv := ToValue(s);
      if sv.None? || p then Done(SeqIndex(s, e.index), p, s1.log)
      else
        var s2 := Step(fns, e.index, s1.log);
        if s2.res.Fail? then s2
        else
          var (i, p2) := s2.res.value;
          var iv := ToValue(i);
          if iv.None? || p2 then Done(SeqIndex(s, i), p2, s2.log)
          else if !sv.value.Seq? then Abort(NotSeq, s2.log)
          else
            match AsInt(iv.value)
            case Fail(f) => Abort(f, s2.log)
            case Ok(k) =>
              if 0 <= k < |sv.value.elems| then Done(Lit(sv.value.elems[k]), true, s2.log)
              else Abort(IndexOutOfRange, s2.log)
  }

  /** `FieldAccess.Step`. While the left-hand side is being reduced the source returns
      the stepped left-hand side ALONE, dropping the field access; this is reproduced. */
  function StepField(fns: seq<Func>, e: Expr, log: Log): (r: Stepped)
    ensures Grows(log, r.log)
    requires e.FieldAccess?
    decreases e, 1
  {
    var s1 := Step(fns, e.lhs, log);
    if s1.res.Fail? then s1
    else
      var (x, p) := s1.res.value;
      var v := ToValue(x);
      if p || v.None? then Done(x, p, s1.log)
      else if !v.value.Struct? then Abort(NotStruct, s1.log)
      else
        match Lookup(v.value.fields, e.field)
        case None => Abort(MissingField(e.field), s1.log)
        case Some(w) => Done(Lit(w), true, s1.log)
  }

  /** `reduceUntilVal` with a fuel bound: step repeatedly, ignoring the progress flag,
      until the expression converts to a value; the first value found is the result.
      The source loops without bound; running out of fuel is this model's failure. */
  function Reduce(fns: seq<Func>, e: Expr, log: Log, fuel: nat): (r: (Result<Val>, Log))
    ensures Grows(log, r.1)
    decreases fuel
  {
    if fuel == 0 then (Fail(OutOfFuel), log)
    else
      var s := Step(fns, e, log);
      if s.res.Fail? then (Fail(s.res.failure), s.log)
      else
        var e' := s.res.value.0;
        match ToValue(e')
        case Some(v) => (Ok(v), s.log)
        case None => Reduce(fns, e', s.log, fuel - 1)
  }
}
