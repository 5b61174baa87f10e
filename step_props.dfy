/** Properties of one reduction step: what each node kind does once its children are
    values, that the progress flag is honest, and that the logs are append-only and
    never influence the result. */
module StepProps {
  import opened Base
  import opened Types
  import opened Syntax
  import opened Values
  import opened Registry
  import opened Infer
  import opened Ops
  import opened Semantics

  /** Value forms that a step returns unchanged: atoms, and sequence literals that
      already carry a type tag and struct literals, whose children are settled. */
  predicate Settled(e: Expr)
    decreases e, 1
  {
    match e
    case IntLit(_) => true
    case BoolLit(_) => true
    case Var(_) => true
    case SymLit(_) => true
    case SeqLit(typ, elems) => typ.Some? && forall k | 0 <= k < |elems| :: Settled(elems[k])
    case StructLit(_, fields) => forall k | 0 <= k < |fields| :: Settled(fields[k].1)
    case _ => false
  }

  /** A settled expression is a value, and a step leaves it, and the logs, unchanged
      and reports no progress. */
  lemma {:induction false} StepSettled(fns: seq<Func>, e: Expr, log: Log)
    requires Settled(e)
    ensures ToValue(e).Some?
    ensures Step(fns, e, log) == Done(e, false, log)
    decreases e, 2
  {
    match e
    case SeqLit(typ, elems) =>
      SeqElemsSettled(fns, e, 0, log);
    case StructLit(_, fields) =>
      StructFieldsSettled(fns, e, 0, log);
    case _ =>
  }

  lemma {:induction false} SeqElemsSettled(fns: seq<Func>, e: Expr, i: nat, log: Log)
    requires Settled(e) && e.SeqLit? && i <= |e.elems|
    ensures forall k | i <= k < |e.elems| :: ToValue(e.elems[k]).Some?
    ensures SeqElems(fns, e, e.typ, i, e.elems, false, log) == Done(e, false, log)
    decreases e, 0, |e.elems| - i
  {
    if i < |e.elems| {
      StepSettled(fns, e.elems[i], log);
      assert e.elems[i := e.elems[i]] == e.elems;
      SeqElemsSettled(fns, e, i + 1, log);
    }
  }

  lemma {:induction false} StructFieldsSettled(fns: seq<Func>, e: Expr, i: nat, log: Log)
    requires Settled(e) && e.StructLit? && i <= |e.fields|
    ensures forall k | i <= k < |e.fields| :: ToValue(e.fields[k].1).Some?
    ensures StructFields(fns, e, i, e.fields, false, log) == Done(e, false, log)
    decreases e, 0, |e.fields| - i
  {
    if i < |e.fields| {
      StepSettled(fns, e.fields[i].1, log);
      assert e.fields[i := (e.fields[i].0, e.fields[i].1)] == e.fields;
      StructFieldsSettled(fns, e, i + 1, log);
    }
  }

  /** The literal of a value whose sequences all carry a type tag is settled. */
  predicate Tagged(v: Val)
    decreases v
  {
    match v
    case Seq(typ, elems) => typ.Some? && forall k | 0 <= k < |elems| :: Tagged(elems[k])
    case Struct(_, fields) => forall k | 0 <= k < |fields| :: Tagged(fields[k].1)
    case _ => true
  }

  lemma {:induction false} LitSettled(v: Val)
    requires Tagged(v)
    ensures Settled(Lit(v))
    decreases v
  {
    match v
    case Seq(_, elems) =>
      forall k | 0 <= k < |elems| ensures Settled(Lit(elems[k])) {
        LitSettled(elems[k]);
      }
    case Struct(_, fields) =>
      forall k | 0 <= k < |fields| ensures Settled(Lit(fields[k].1)) {
        LitSettled(fields[k].1);
      }
    case _ =>
  }

  /** The value of a settled expression has every sequence tagged. */
  lemma {:induction false} SettledTagged(e: Expr)
    requires Settled(e)
    ensures ToValue(e).Some? && Tagged(ToValue(e).value)
    decreases e
  {
    StepSettled([], e, NoLog());
    match e
    case SeqLit(_, elems) =>
      forall k | 0 <= k < |elems| ensures Tagged(ToValue(e).value.elems[k]) {
        SettledTagged(elems[k]);
      }
    case StructLit(_, fields) =>
      forall k | 0 <= k < |fields| ensures Tagged(ToValue(e).value.fields[k].1) {
        SettledTagged(fields[k].1);
      }
    case _ =>
  }

  /** The element loop over settled elements changes nothing and reports no progress,
      whatever the tag: an untagged literal of settled elements just receives its tag. */
  lemma {:induction false} SeqElemsOfSettled(fns: seq<Func>, e: Expr, t: Option<Type>, i: nat, log: Log)
    requires e.SeqLit? && i <= |e.elems|
    requires forall k | 0 <= k < |e.elems| :: Settled(e.elems[k])
    ensures SeqElems(fns, e, t, i, e.elems, false, log) == Done(SeqLit(t, e.elems), false, log)
    decreases |e.elems| - i
  {
    if i < |e.elems| {
      StepSettled(fns, e.elems[i], log);
      assert e.elems[i := e.elems[i]] == e.elems;
      SeqElemsOfSettled(fns, e, t, i + 1, log);
    }
  }

  /** The form a value takes after one step: each untagged sequence literal in it
      whose element type can be inferred receives that type as its tag. */
  function Filled(fns: seq<Func>, e: Expr): Expr {
    var s := Step(fns, e, NoLog());
    if s.res.Ok? then s.res.value.0 else e
  }

  /** Each of `es` with its tags filled in. */
  function FilledAll(fns: seq<Func>, es: seq<Expr>): seq<Expr> {
    seq(|es|, k requires 0 <= k < |es| => Filled(fns, es[k]))
  }

  /** `b` is `a` with type tags filled in: the same atoms, and literals of the same
      kind, length, struct name and field names, whose tags are kept where present. */
  predicate TagsFilled(a: Expr, b: Expr)
    decreases a
  {
    match a
    case SeqLit(typ, elems) =>
      b.SeqLit? && (typ.Some? ==> b.typ == typ) && |b.elems| == |elems| &&
      forall k | 0 <= k < |elems| :: TagsFilled(elems[k], b.elems[k])
    case StructLit(tname, fields) =>
      b.StructLit? && b.tname == tname && |b.fields| == |fields| &&
      forall k | 0 <= k < |fields| :: b.fields[k].0 == fields[k].0 && TagsFilled(fields[k].1, b.fields[k].1)
    case _ => b == a
  }

  /** A value steps without progress and leaves the logs alone; what it steps to is
      itself with its type tags filled in, and is again a value. */
  lemma {:induction false} ValueSteps(fns: seq<Func>, e: Expr, log: Log)
    requires ToValue(e).Some?
    ensures Step(fns, e, log) == Done(Filled(fns, e), false, log)
    ensures ToValue(Filled(fns, e)).Some? && TagsFilled(e, Filled(fns, e))
    decreases e, 2
  {
    StepLogIndependent(fns, e, log);
    match e
    case SeqLit(_, _) => SeqLitSteps(fns, e, log);
    case StructLit(_, _) => StructLitSteps(fns, e, log);
    case _ =>
  }

  /** The sequence-literal case of `ValueSteps`. */
  lemma {:induction false} SeqLitSteps(fns: seq<Func>, e: Expr, log: Log)
    requires e.SeqLit? && ToValue(e).Some?
    ensures TypeOf(fns, e).Ok?
    ensures var x := SeqLit(TypeOf(fns, e).value, FilledAll(fns, e.elems));
      Step(fns, e, log) == Done(x, false, log) && ToValue(x).Some? && TagsFilled(e, x)
    decreases e, 1
  {
    TypeOfValueOk(fns, e);
    var t := TypeOf(fns, e).value;
    SeqElemsValues(fns, e, t, 0, e.elems, log);
    assert SeqElems(fns, e, t, 0, e.elems, false, log).res.value.0.elems == FilledAll(fns, e.elems);
    forall k | 0 <= k < |e.elems|
      ensures ToValue(Filled(fns, e.elems[k])).Some? && TagsFilled(e.elems[k], Filled(fns, e.elems[k]))
    {
      ValueSteps(fns, e.elems[k], log);
    }
  }

  /** The struct-literal case of `ValueSteps`. */
  lemma {:induction false} StructLitSteps(fns: seq<Func>, e: Expr, log: Log)
    requires e.StructLit? && ToValue(e).Some?
    ensures Step(fns, e, log).res.Ok?
    ensures var x := Step(fns, e, log).res.value.0;
      Step(fns, e, log) == Done(x, false, log) && ToValue(x).Some? && TagsFilled(e, x)
    decreases e, 1
  {
    StructFieldsValues(fns, e, 0, e.fields, log);
    forall k | 0 <= k < |e.fields|
      ensures ToValue(Filled(fns, e.fields[k].1)).Some? && TagsFilled(e.fields[k].1, Filled(fns, e.fields[k].1))
    {
      ValueSteps(fns, e.fields[k].1, log);
    }
  }

  lemma {:induction false} SeqElemsValues(fns: seq<Func>, e: Expr, t: Option<Type>, i: nat,
                                          elems: seq<Expr>, log: Log)
    requires e.SeqLit? && i <= |e.elems| && |elems| == |e.elems|
    requires forall k | 0 <= k < |e.elems| :: ToValue(e.elems[k]).Some?
    ensures var s := SeqElems(fns, e, t, i, elems, false, log);
      s.res.Ok? && !s.res.value.1 && s.log == log &&
      var x := s.res.value.0;
      x.SeqLit? && x.typ == t && |x.elems| == |elems| &&
      (forall k | 0 <= k < i :: x.elems[k] == elems[k]) &&
      (forall k | i <= k < |elems| :: x.elems[k] == Filled(fns, e.elems[k]))
    decreases e, 0, |e.elems| - i
  {
    if i < |e.elems| {
      ValueSteps(fns, e.elems[i], log);
      SeqElemsValues(fns, e, t, i + 1, elems[i := Filled(fns, e.elems[i])], log);
    }
  }

  lemma {:induction false} StructFieldsValues(fns: seq<Func>, e: Expr, i: nat,
                                              fields: seq<(string, Expr)>, log: Log)
    requires e.StructLit? && i <= |e.fields| && |fields| == |e.fields|
    requires forall k | 0 <= k < |e.fields| :: ToValue(e.fields[k].1).Some?
    ensures var s := StructFields(fns, e, i, fields, false, log);
      s.res.Ok? && !s.res.value.1 && s.log == log &&
      var x := s.res.value.0;
      x.StructLit? && x.tname == e.tname && |x.fields| == |fields| &&
      (forall k | 0 <= k < i :: x.fields[k] == fields[k]) &&
      (forall k | i <= k < |fields| :: x.fields[k] == (e.fields[k].0, Filled(fns, e.fields[k].1)))
    decreases e, 0, |e.fields| - i
  {
    if i < |e.fields| {
      ValueSteps(fns, e.fields[i].1, log);
      StructFieldsValues(fns, e, i + 1, fields[i := (e.fields[i].0, Filled(fns, e.fields[i].1))], log);
    }
  }

  /** Filling in tags does not change the type inferred for a value. */
  lemma {:induction false} FilledTypeOf(fns: seq<Func>, x: Expr)
    requires ToValue(x).Some?
    ensures TypeOf(fns, Filled(fns, x)) == TypeOf(fns, x)
    decreases x, 2
  {
    ValueSteps(fns, x, NoLog());
    if x.SeqLit? {
      SeqLitSteps(fns, x, NoLog());
      if TypeOf(fns, x).value.None? {
        FirstElemTypeFilled(fns, x, TypeOf(fns, x).value, 0);
      }
    }
  }

  lemma {:induction false} FirstElemTypeFilled(fns: seq<Func>, x: Expr, t: Option<Type>, i: nat)
    requires x.SeqLit? && ToValue(x).Some? && i <= |x.elems|
    ensures FirstElemType(fns, SeqLit(t, FilledAll(fns, x.elems)), i) == FirstElemType(fns, x, i)
    decreases x, 1, |x.elems| - i
  {
    if i < |x.elems| {
      FilledTypeOf(fns, x.elems[i]);
      FirstElemTypeFilled(fns, x, t, i + 1);
    }
  }

  /** A filled value is its own filled form: a second step changes nothing. */
  lemma {:induction false} FilledFixed(fns: seq<Func>, x: Expr)
    requires ToValue(x).Some?
    ensures Filled(fns, Filled(fns, x)) == Filled(fns, x)
    decreases x, 1
  {
    ValueSteps(fns, x, NoLog());
    var y := Filled(fns, x);
    match x
    case SeqLit(_, elems) =>
      SeqLitSteps(fns, x, NoLog());
      SeqLitSteps(fns, y, NoLog());
      FilledTypeOf(fns, x);
      forall k | 0 <= k < |elems| ensures Filled(fns, y.elems[k]) == y.elems[k] {
        FilledFixed(fns, elems[k]);
      }
      assert FilledAll(fns, y.elems) == y.elems;
    case StructLit(_, fields) =>
      StructFieldsValues(fns, x, 0, fields, NoLog());
      StructFieldsValues(fns, y, 0, y.fields, NoLog());
      forall k | 0 <= k < |fields| ensures Filled(fns, y.fields[k].1) == y.fields[k].1 {
        FilledFixed(fns, fields[k].1);
      }
      assert Filled(fns, y).fields == y.fields;
    case _ =>
  }

  /** Filling in tags does not change a well-formed value as the language compares
      values: the original `Equals` its filled form. */
  lemma {:induction false} FilledEquals(a: Expr, b: Expr)
    requires TagsFilled(a, b) && ToValue(a).Some? && ToValue(b).Some?
    requires WellFormed(ToValue(a).value)
    ensures Equals(ToValue(a).value, ToValue(b).value)
    decreases a, 1
  {
    FilledValue(a, b);
    var va := ToValue(a).value;
    var vb := ToValue(b).value;
    match a
    case SeqLit(_, elems) =>
      forall k | 0 <= k < |elems| ensures Equals(va.elems[k], vb.elems[k]) {
        FilledEquals(elems[k], b.elems[k]);
      }
    case StructLit(_, _) => StructFilledEquals(a, b);
    case _ =>
      EqualsReflexive(va);
  }

  /** The struct case of `FilledEquals`. */
  lemma {:induction false} StructFilledEquals(a: Expr, b: Expr)
    requires a.StructLit? && TagsFilled(a, b) && ToValue(a).Some? && ToValue(b).Some?
    requires WellFormed(ToValue(a).value)
    ensures Equals(ToValue(a).value, ToValue(b).value)
    decreases a, 0
  {
    FilledValue(a, b);
    var va := ToValue(a).value;
    var vb := ToValue(b).value;
    assert DistinctKeys(vb.fields);
    forall k | 0 <= k < |a.fields|
      ensures Lookup(vb.fields, va.fields[k].0) == Some(vb.fields[k].1) && Equals(va.fields[k].1, vb.fields[k].1)
    {
      LookupDistinct(vb.fields, k);
      FilledEquals(a.fields[k].1, b.fields[k].1);
    }
  }

  /** A settled value is already its own filled form. */
  lemma FilledSettled(fns: seq<Func>, e: Expr)
    requires Settled(e)
    ensures Filled(fns, e) == e
  {
    StepSettled(fns, e, NoLog());
  }

  /** Filling in tags keeps the kind of a value, its scalar payload, the length and
      any existing tag of a sequence, and the name and field names of a struct. */
  lemma FilledValue(a: Expr, b: Expr)
    requires TagsFilled(a, b) && ToValue(a).Some? && ToValue(b).Some?
    ensures var va := ToValue(a).value;
      var vb := ToValue(b).value;
      (va.Int? || va.Bool? || va.SymVal? ==> vb == va) &&
      (va.Seq? <==> vb.Seq?) && (va.Struct? <==> vb.Struct?) &&
      (va.Seq? ==> |vb.elems| == |va.elems| && (va.typ.Some? ==> vb.typ == va.typ)) &&
      (va.Struct? ==>
         vb.tname == va.tname && |vb.fields| == |va.fields| &&
         forall k | 0 <= k < |va.fields| :: vb.fields[k].0 == va.fields[k].0)
  {
  }

  /** Progress: a step on an expression that is not a value either aborts or reports
      progress. With `ValueSteps` this makes the progress flag exact: no progress
      happens exactly when the expression is already a value. */
  lemma {:induction false} Progress(fns: seq<Func>, e: Expr, log: Log)
    requires ToValue(e).None?
    ensures var s := Step(fns, e, log); s.res.Fail? || s.res.value.1
    decreases e, 2
  {
    match e
    case Binop(_, l, r) =>
      if ToValue(l).None? { Progress(fns, l, log); } else { ValueSteps(fns, l, log); }
      if ToValue(r).None? { Progress(fns, r, log); } else { ValueSteps(fns, r, log); }
    case Ternop(c, _, _) =>
      if ToValue(c).None? { Progress(fns, c, log); } else { ValueSteps(fns, c, log); }
    case Call(_, args) =>
      CallArgsProgress(fns, e, 0, args, log);
    case SeqLit(_, elems) =>
      if TypeOf(fns, e).Ok? {
        SeqElemsProgress(fns, e, TypeOf(fns, e).value, 0, elems, false, log);
      }
    case StructLit(_, fields) =>
      StructFieldsProgress(fns, e, 0, fields, false, log);
    case SeqSlice(_, _, _) =>
      StepSliceProgress(fns, e, log);
    case SeqIndex(b, i) =>
      if ToValue(b).None? { Progress(fns, b, log); } else { ValueSteps(fns, b, log); }
      if ToValue(i).None? { Progress(fns, i, log); } else { ValueSteps(fns, i, log); }
    case FieldAccess(lhs, _) =>
      if ToValue(lhs).None? { Progress(fns, lhs, log); } else { ValueSteps(fns, lhs, log); }
  }

  /** The slice case of `Progress`. */
  lemma {:induction false} StepSliceProgress(fns: seq<Func>, e: Expr, log: Log)
    requires e.SeqSlice?
    ensures var s := StepSlice(fns, e, log); s.res.Fail? || s.res.value.1
    decreases e, 1
  {
    var b, lo := e.base, e.low;
    if ToValue(b).None? { Progress(fns, b, log); }
    else {
      ValueSteps(fns, b, log);
      var s := Step(fns, b, log).res.value.0;
      var sv := ToValue(s).value;
      if sv.Seq? {
        if lo.None? {
          SliceHighProgress(fns, e, s, sv, 0, None, log);
        } else if ToValue(lo.value).None? {
          Progress(fns, lo.value, log);
        } else {
          ValueSteps(fns, lo.value, log);
          var x := Step(fns, lo.value, log).res.value.0;
          if AsInt(ToValue(x).value).Ok? {
            SliceHighProgress(fns, e, s, sv, AsInt(ToValue(x).value).value, Some(x), log);
          }
        }
      }
    }
  }

  lemma {:induction false} CallArgsProgress(fns: seq<Func>, e: Expr, i: nat, args: seq<Expr>, log: Log)
    requires e.Call? && i <= |e.args| && |args| == |e.args|
    ensures var s := CallArgs(fns, e, i, args, log); s.res.Fail? || s.res.value.1
    decreases e, 0, |e.args| - i
  {
    if i < |e.args| {
      var a := e.args[i];
      var log1 := if ToValue(a).None? then log.(crits := log.crits + [a]) else log;
      if ToValue(a).None? {
        Progress(fns, a, log1);
      } else {
        ValueSteps(fns, a, log1);
        CallArgsProgress(fns, e, i + 1, args[i := Step(fns, a, log1).res.value.0], log1);
      }
    }
  }

  lemma {:induction false} SeqElemsProgress(fns: seq<Func>, e: Expr, t: Option<Type>, i: nat,
                                            elems: seq<Expr>, anyStep: bool, log: Log)
    requires e.SeqLit? && i <= |e.elems| && |elems| == |e.elems|
    requires exists j | i <= j < |e.elems| :: ToValue(e.elems[j]).None?
    ensures var s := SeqElems(fns, e, t, i, elems, anyStep, log); s.res.Fail? || s.res.value.1
    decreases e, 0, |e.elems| - i
  {
    if ToValue(e.elems[i]).None? {
      Progress(fns, e.elems[i], log);
    } else {
      ValueSteps(fns, e.elems[i], log);
      var x := Step(fns, e.elems[i], log).res.value.0;
      SeqElemsProgress(fns, e, t, i + 1, elems[i := x], anyStep, log);
    }
  }

  lemma {:induction false} StructFieldsProgress(fns: seq<Func>, e: Expr, i: nat,
                                                fields: seq<(string, Expr)>, anyStep: bool, log: Log)
    requires e.StructLit? && i <= |e.fields| && |fields| == |e.fields|
    requires exists j | i <= j < |e.fields| :: ToValue(e.fields[j].1).None?
    ensures var s := StructFields(fns, e, i, fields, anyStep, log); s.res.Fail? || s.res.value.1
    decreases e, 0, |e.fields| - i
  {
    if ToValue(e.fields[i].1).None? {
      Progress(fns, e.fields[i].1, log);
    } else {
      ValueSteps(fns, e.fields[i].1, log);
      var x := Step(fns, e.fields[i].1, log).res.value.0;
      StructFieldsProgress(fns, e, i + 1, fields[i := (e.fields[i].0, x)], anyStep, log);
    }
  }

  lemma {:induction false} SliceHighProgress(fns: seq<Func>, e: Expr, s: Expr, sq: Val, low: int,
                                             lowRed: Option<Expr>, log: Log)
    requires e.SeqSlice? && sq.Seq?
    ensures var r := SliceHigh(fns, e, s, sq, low, lowRed, log); r.res.Fail? || r.res.value.1
    decreases e, 0
  {
    if e.high.Some? {
      if ToValue(e.high.value).None? {
        Progress(fns, e.high.value, log);
      } else {
        ValueSteps(fns, e.high.value, log);
      }
    }
  }

  /** The progress flag is exact: a step succeeds without progress exactly on the
      expressions that are already values. */
  lemma NoProgressIffValue(fns: seq<Func>, e: Expr, log: Log)
    ensures var s := Step(fns, e, log);
      (s.res.Ok? && !s.res.value.1) <==> ToValue(e).Some?
  {
    if ToValue(e).Some? { ValueSteps(fns, e, log); } else { Progress(fns, e, log); }
  }

  /** `And` with a settled `false` left operand answers `false` without ever stepping
      the right operand: the result and the logs are the same whatever `r` is. */
  lemma AndShortCircuit(fns: seq<Func>, l: Expr, r: Expr, log: Log)
    requires Settled(l) && ToValue(l) == Some(Bool(false))
    ensures Step(fns, Binop(And, l, r), log) == Done(BoolLit(false), true, log)
  {
    StepSettled(fns, l, log);
  }

  /** With both operands values, a binary operation is replaced in one step by the
      literal of `evalBinop` on their values once their tags are filled in, or aborts
      with its failure; the logs are unchanged. An `And` whose left operand is not a
      boolean fails as `asBool` does. */
  lemma BinopOnValues(fns: seq<Func>, op: BinopKind, l: Expr, r: Expr, log: Log)
    requires ToValue(l).Some? && ToValue(r).Some?
    requires op == And ==> ToValue(l) != Some(Bool(false))
    ensures ToValue(Filled(fns, l)).Some? && ToValue(Filled(fns, r)).Some?
    ensures var s := Step(fns, Binop(op, l, r), log);
      s.log == log &&
      (op == And && !ToValue(l).value.Bool? ==> s.res == Fail(NotBool)) &&
      (op != And || ToValue(l).value.Bool? ==>
        match EvalBinop(op, ToValue(Filled(fns, l)).value, ToValue(Filled(fns, r)).value)
        case Ok(v) => s.res == Ok((Lit(v), true))
        case Fail(f) => s.res == Fail(f))
  {
    ValueSteps(fns, l, log);
    ValueSteps(fns, r, log);
    FilledValue(l, Filled(fns, l));
  }

  /** `BinopOnValues` for settled operands, which are their own filled forms. */
  lemma BinopOnSettled(fns: seq<Func>, op: BinopKind, l: Expr, r: Expr, log: Log)
    requires Settled(l) && Settled(r)
    requires op == And ==> ToValue(l) != Some(Bool(false))
    ensures ToValue(l).Some? && ToValue(r).Some?
    ensures var s := Step(fns, Binop(op, l, r), log);
      s.log == log &&
      (op == And && !ToValue(l).value.Bool? ==> s.res == Fail(NotBool)) &&
      (op != And || ToValue(l).value.Bool? ==>
        match EvalBinop(op, ToValue(l).value, ToValue(r).value)
        case Ok(v) => s.res == Ok((Lit(v), true))
        case Fail(f) => s.res == Fail(f))
  {
    StepSettled(fns, l, log);
    StepSettled(fns, r, log);
  }

  /** A conditional whose condition is a boolean value steps to the selected branch,
      unreduced; one whose condition is a value of another kind aborts. */
  lemma TernopOnValue(fns: seq<Func>, c: Expr, yes: Expr, no: Expr, log: Log)
    requires ToValue(c).Some?
    ensures var s := Step(fns, Ternop(c, yes, no), log);
      s.log == log &&
      (ToValue(c).value.Bool? ==> s.res == Ok((if ToValue(c).value.b then yes else no, true))) &&
      (!ToValue(c).value.Bool? ==> s.res == Fail(NonBoolCondition))
  {
    ValueSteps(fns, c, log);
    FilledValue(c, Filled(fns, c));
  }

  /** `TernopOnValue` for a settled condition. */
  lemma TernopOnSettled(fns: seq<Func>, c: Expr, yes: Expr, no: Expr, log: Log)
    requires Settled(c)
    ensures ToValue(c).Some?
    ensures var s := Step(fns, Ternop(c, yes, no), log);
      s.log == log &&
      (ToValue(c).value.Bool? ==> s.res == Ok((if ToValue(c).value.b then yes else no, true))) &&
      (!ToValue(c).value.Bool? ==> s.res == Fail(NonBoolCondition))
  {
    StepSettled(fns, c, log);
  }

  /** With every argument a value, the argument loop logs nothing as critical and hands
      over to the finishing part with each remaining argument's tags filled in. */
  lemma {:induction false} CallArgsValues(fns: seq<Func>, e: Expr, i: nat, args: seq<Expr>, log: Log)
    requires e.Call? && i <= |e.args| && |args| == |e.args|
    requires forall k | 0 <= k < |e.args| :: ToValue(e.args[k]).Some?
    ensures CallArgs(fns, e, i, args, log) == CallFinish(fns, e, args[..i] + FilledAll(fns, e.args[i..]), log)
    decreases |e.args| - i
  {
    if i < |e.args| {
      var x := Filled(fns, e.args[i]);
      ValueSteps(fns, e.args[i], log);
      CallArgsValues(fns, e, i + 1, args[i := x], log);
      assert args[i := x][..i + 1] + FilledAll(fns, e.args[i + 1..]) == args[..i] + FilledAll(fns, e.args[i..]);
    } else {
      assert args[..i] + FilledAll(fns, e.args[i..]) == args;
    }
  }

  /** With every argument settled, the argument loop hands over to the finishing part
      with the arguments unchanged and nothing logged as critical. */
  lemma {:induction false} CallArgsSettled(fns: seq<Func>, e: Expr, i: nat, log: Log)
    requires e.Call? && i <= |e.args|
    requires forall k | 0 <= k < |e.args| :: Settled(e.args[k])
    ensures CallArgs(fns, e, i, e.args, log) == CallFinish(fns, e, e.args, log)
    decreases |e.args| - i
  {
    if i < |e.args| {
      StepSettled(fns, e.args[i], log);
      assert e.args[i := e.args[i]] == e.args;
      CallArgsSettled(fns, e, i + 1, log);
    }
  }

  /** `len` of a sequence value is its element count, found in one step without
      consulting the registry and without logging anything; `len` of any other value
      aborts. */
  lemma CallLen(fns: seq<Func>, a: Expr, log: Log)
    requires ToValue(a).Some?
    ensures a.SeqLit? ==> Step(fns, Call("len", [a]), log) == Done(IntLit(|a.elems|), true, log)
    ensures !a.SeqLit? ==> Step(fns, Call("len", [a]), log) == Abort(NotSeq, log)
  {
    CallArgsValues(fns, Call("len", [a]), 0, [a], log);
    ValueSteps(fns, a, log);
    FilledValue(a, Filled(fns, a));
    assert FilledAll(fns, [a]) == [Filled(fns, a)];
  }

  /** `CallLen` for a settled sequence literal. */
  lemma CallLenSettled(fns: seq<Func>, a: Expr, log: Log)
    requires Settled(a) && a.SeqLit?
    ensures Step(fns, Call("len", [a]), log) == Done(IntLit(|a.elems|), true, log)
  {
    CallArgsSettled(fns, Call("len", [a]), 0, log);
    StepSettled(fns, a, log);
  }

  /** Unfolding a call of a registered function whose arguments are values: the call,
      with its arguments' tags filled in, is appended to the resolved-call and the
      critical-expression logs; an unknown name or a wrong argument count aborts;
      otherwise the body with the filled arguments substituted for the parameters
      replaces the call, and the original call becomes the last critical expression. */
  lemma CallUnfold(fns: seq<Func>, name: string, args: seq<Expr>, log: Log)
    requires name != "len"
    requires forall k | 0 <= k < |args| :: ToValue(args[k]).Some?
    ensures |FilledAll(fns, args)| == |args|
    ensures var call := Call(name, args);
      var filled := FilledAll(fns, args);
      var s := Step(fns, call, log);
      s.log.calls == log.calls + [Call(name, filled)] && s.log.crits == log.crits + [Call(name, filled)] &&
      match GetFn(fns, name)
      case Fail(_) => s.res == Fail(UnknownFunction(name)) && s.log.critical == log.critical
      case Ok(fn) =>
        if |fn.vars| != |args| then s.res == Fail(ArityMismatch(name)) && s.log.critical == log.critical
        else s.res == Ok((SubstParams(fn.body, fn.vars, filled, 0), true)) && s.log.critical == Some(call)
  {
    CallArgsValues(fns, Call(name, args), 0, args, log);
    assert args[..0] + FilledAll(fns, args[0..]) == FilledAll(fns, args);
  }

  /** `CallUnfold` for settled arguments, which are passed on unchanged. */
  lemma CallUnfoldSettled(fns: seq<Func>, name: string, args: seq<Expr>, log: Log)
    requires name != "len"
    requires forall k | 0 <= k < |args| :: Settled(args[k])
    ensures var call := Call(name, args);
      var s := Step(fns, call, log);
      s.log.calls == log.calls + [call] && s.log.crits == log.crits + [call] &&
      match GetFn(fns, name)
      case Fail(_) => s.res == Fail(UnknownFunction(name)) && s.log.critical == log.critical
      case Ok(fn) =>
        if |fn.vars| != |args| then s.res == Fail(ArityMismatch(name)) && s.log.critical == log.critical
        else s.res == Ok((SubstParams(fn.body, fn.vars, args, 0), true)) && s.log.critical == Some(call)
  {
    CallArgsSettled(fns, Call(name, args), 0, log);
  }

  /** The first argument that is not yet a value is logged as critical before it is
      stepped, and the call comes back with that argument replaced by its step; the
      later arguments are not touched. */
  lemma CallStepsFirstArg(fns: seq<Func>, name: string, args: seq<Expr>, log: Log)
    requires |args| > 0 && ToValue(args[0]).None?
    ensures var s := Step(fns, args[0], log.(crits := log.crits + [args[0]]));
      Step(fns, Call(name, args), log) ==
        if s.res.Fail? then s else Done(Call(name, args[0 := s.res.value.0]), s.res.value.1, s.log)
  {
    Progress(fns, args[0], log.(crits := log.crits + [args[0]]));
  }

  /** The end of a slice: it succeeds exactly when `0 <= low <= high <= len`, giving a
      literal of elements `[low, high)` with the base's tag, and the slice becomes the
      last critical expression exactly when `low != 0`; otherwise it aborts as out of
      range with the logs unchanged. */
  lemma SliceFinishBounds(fns: seq<Func>, e: Expr, sq: Val, low: int, high: int, log: Log)
    requires e.SeqSlice? && sq.Seq?
    ensures var s := SliceFinish(fns, e, sq, low, high, log);
      (s.res.Ok? <==> 0 <= low <= high <= |sq.elems|) &&
      (s.res.Fail? ==> s.res.failure == SliceOutOfRange && s.log == log) &&
      (s.res.Ok? ==>
        s.res.value.1 && ToValue(s.res.value.0).Some? && ToValue(s.res.value.0).value.Seq? &&
        ToValue(s.res.value.0).value.elems == sq.elems[low..high] &&
        (sq.typ.Some? ==> ToValue(s.res.value.0).value.typ == sq.typ) &&
        s.log == log.(critical := if low != 0 then Some(e) else log.critical))
  {
    if 0 <= low <= high <= |sq.elems| {
      var res := seq(high - low, k requires 0 <= k < high - low => Lit(sq.elems[low + k]));
      forall k | 0 <= k < high - low ensures ToValue(res[k]) == Some(sq.elems[low + k]) {
        LitRoundTrip(sq.elems[low + k]);
      }
      TypeOfValueOk(fns, SeqLit(sq.typ, res));
      var t := TypeOf(fns, SeqLit(sq.typ, res)).value;
      assert ToValue(SeqLit(t, res)).value.elems == sq.elems[low..high];
    }
  }

  /** Slicing a value by literal bounds (an absent bound meaning 0, or the length):
      a sequence goes straight to the end of the slice, on its value with the tags
      filled in, which keeps the length and any tag; any other value aborts. The logs
      are unchanged. */
  lemma SliceOnValues(fns: seq<Func>, base: Expr, lo: Option<int>, hi: Option<int>, log: Log)
    requires ToValue(base).Some?
    ensures ToValue(Filled(fns, base)).Some?
    ensures base.SeqLit? ==>
      ToValue(Filled(fns, base)).value.Seq? && |ToValue(Filled(fns, base)).value.elems| == |base.elems| &&
      (base.typ.Some? ==> ToValue(Filled(fns, base)).value.typ == base.typ)
    ensures var e := SeqSlice(base, if lo.Some? then Some(IntLit(lo.value)) else None,
                                    if hi.Some? then Some(IntLit(hi.value)) else None);
      (!base.SeqLit? ==> Step(fns, e, log) == Abort(NotSeq, log)) &&
      (base.SeqLit? ==>
        Step(fns, e, log) ==
          SliceFinish(fns, e, ToValue(Filled(fns, base)).value, if lo.Some? then lo.value else 0,
                      if hi.Some? then hi.value else |base.elems|, log))
  {
    ValueSteps(fns, base, log);
    var b := Filled(fns, base);
    FilledValue(base, b);
    var e := SeqSlice(base, if lo.Some? then Some(IntLit(lo.value)) else None,
                            if hi.Some? then Some(IntLit(hi.value)) else None);
    assert Step(fns, e, log) == StepSlice(fns, e, log);
    if base.SeqLit? {
      var sq := ToValue(b).value;
      var low := if lo.Some? then lo.value else 0;
      StepSettled(fns, IntLit(low), log);
      if hi.Some? { StepSettled(fns, IntLit(hi.value), log); }
      var lowRed := if lo.Some? then Some(IntLit(low)) else None;
      assert Step(fns, e, log) == SliceHigh(fns, e, b, sq, low, lowRed, log);
    }
  }

  /** `SliceOnValues` for a settled sequence literal, which is its own filled form. */
  lemma SliceOnSettled(fns: seq<Func>, base: Expr, lo: Option<int>, hi: Option<int>, log: Log)
    requires Settled(base) && base.SeqLit?
    ensures ToValue(base).Some? && ToValue(base).value.Seq? && ToValue(base).value.typ.Some?
    ensures var sq := ToValue(base).value;
      var e := SeqSlice(base, if lo.Some? then Some(IntLit(lo.value)) else None,
                              if hi.Some? then Some(IntLit(hi.value)) else None);
      Step(fns, e, log) ==
        SliceFinish(fns, e, sq, if lo.Some? then lo.value else 0, if hi.Some? then hi.value else |sq.elems|, log)
  {
    StepSettled(fns, base, log);
    var sq := ToValue(base).value;
    var low := if lo.Some? then lo.value else 0;
    var high := if hi.Some? then hi.value else |sq.elems|;
    var e := SeqSlice(base, if lo.Some? then Some(IntLit(lo.value)) else None,
                            if hi.Some? then Some(IntLit(hi.value)) else None);
    StepSettled(fns, IntLit(low), log);
    StepSettled(fns, IntLit(high), log);
    assert Step(fns, e, log) == StepSlice(fns, e, log);
    var lowRed := if lo.Some? then Some(IntLit(low)) else None;
    assert Step(fns, e, log) == SliceHigh(fns, e, base, sq, low, lowRed, log);
  }

  /** Indexing a value by a literal index: for a sequence, the literal of element `k`
      of its value with the tags filled in when `0 <= k < len`, an out-of-range failure
      otherwise; any other value aborts. The logs are unchanged. */
  lemma IndexOnValues(fns: seq<Func>, base: Expr, k: int, log: Log)
    requires ToValue(base).Some?
    ensures ToValue(Filled(fns, base)).Some?
    ensures base.SeqLit? ==>
      ToValue(Filled(fns, base)).value.Seq? && |ToValue(Filled(fns, base)).value.elems| == |base.elems|
    ensures var s := Step(fns, SeqIndex(base, IntLit(k)), log);
      s.log == log &&
      (!base.SeqLit? ==> s.res == Fail(NotSeq)) &&
      (base.SeqLit? && 0 <= k < |base.elems| ==> s.res == Ok((Lit(ToValue(Filled(fns, base)).value.elems[k]), true))) &&
      (base.SeqLit? && !(0 <= k < |base.elems|) ==> s.res == Fail(IndexOutOfRange))
  {
    ValueSteps(fns, base, log);
    FilledValue(base, Filled(fns, base));
    StepSettled(fns, IntLit(k), log);
    var e := SeqIndex(base, IntLit(k));
    assert Step(fns, e, log) == StepIndex(fns, e, log);
  }

  /** `IndexOnValues` for a settled sequence literal. */
  lemma IndexOnSettled(fns: seq<Func>, base: Expr, k: int, log: Log)
    requires Settled(base) && base.SeqLit?
    ensures ToValue(base).Some?
    ensures var elems := ToValue(base).value.elems;
      var s := Step(fns, SeqIndex(base, IntLit(k)), log);
      s.log == log &&
      (0 <= k < |elems| ==> s.res == Ok((Lit(elems[k]), true))) &&
      (!(0 <= k < |elems|) ==> s.res == Fail(IndexOutOfRange))
  {
    StepSettled(fns, base, log);
    StepSettled(fns, IntLit(k), log);
    var e := SeqIndex(base, IntLit(k));
    assert Step(fns, e, log) == StepIndex(fns, e, log);
  }

  /** Field access on a value: for a struct, the literal of the first field of that
      name, taken from its value with the tags filled in; a missing field or a
      non-struct aborts. The logs are unchanged. */
  lemma FieldOnValue(fns: seq<Func>, lhs: Expr, field: string, log: Log)
    requires ToValue(lhs).Some?
    ensures ToValue(Filled(fns, lhs)).Some?
    ensures var v := ToValue(lhs).value;
      var w := ToValue(Filled(fns, lhs)).value;
      var s := Step(fns, FieldAccess(lhs, field), log);
      s.log == log &&
      (!v.Struct? ==> s.res == Fail(NotStruct)) &&
      (v.Struct? && Lookup(v.fields, field).None? ==> s.res == Fail(MissingField(field))) &&
      (v.Struct? && Lookup(v.fields, field).Some? ==>
         w.Struct? && Lookup(w.fields, field).Some? && s.res == Ok((Lit(Lookup(w.fields, field).value), true)))
  {
    ValueSteps(fns, lhs, log);
    FilledValue(lhs, Filled(fns, lhs));
  }

  /** `FieldOnValue` for a settled left-hand side. */
  lemma FieldOnSettled(fns: seq<Func>, lhs: Expr, field: string, log: Log)
    requires Settled(lhs)
    ensures ToValue(lhs).Some?
    ensures var v := ToValue(lhs).value;
      var s := Step(fns, FieldAccess(lhs, field), log);
      s.log == log &&
      (!v.Struct? ==> s.res == Fail(NotStruct)) &&
      (v.Struct? && Lookup(v.fields, field).None? ==> s.res == Fail(MissingField(field))) &&
      (v.Struct? && Lookup(v.fields, field).Some? ==> s.res == Ok((Lit(Lookup(v.fields, field).value), true)))
  {
    StepSettled(fns, lhs, log);
  }

  /** The field-access quirk: while the left-hand side is not yet a value, a step
      returns the stepped left-hand side alone and the field access is lost. */
  lemma FieldAccessDropped(fns: seq<Func>, lhs: Expr, field: string, log: Log)
    requires ToValue(lhs).None?
    ensures var s := Step(fns, lhs, log);
      Step(fns, FieldAccess(lhs, field), log) == (if s.res.Fail? then s else Done(s.res.value.0, s.res.value.1, s.log))
  {
    Progress(fns, lhs, log);
  }

  /** The empty logs of a fresh context. */
  function NoLog(): Log {
    Log([], [], None)
  }

  /** The logs `base` followed by the entries `d` added after them; a critical
      expression recorded in `d` replaces the one in `base`. */
  function Extend(base: Log, d: Log): (r: Log)
    ensures d == NoLog() ==> r == base
  {
    Log(base.calls + d.calls, base.crits + d.crits, if d.critical.Some? then d.critical else base.critical)
  }

  function Shift(base: Log, s: Stepped): Stepped {
    Stepped(s.res, Extend(base, s.log))
  }

  /** The frame property of a step: the logs never influence the result, and a step
      only appends to them. Stepping after `base` and `d` gives the outcome of stepping
      after `d` alone, with `base` in front of the logs. */
  lemma {:induction false} StepFrame(fns: seq<Func>, e: Expr, base: Log, d: Log)
    ensures Step(fns, e, Extend(base, d)) == Shift(base, Step(fns, e, d))
    decreases e, 2
  {
    match e
    case Binop(_, _, _) =>
      StepBinopFrame(fns, e, base, d);
    case Ternop(c, _, _) =>
      StepFrame(fns, c, base, d);
    case Call(_, _) =>
      CallArgsFrame(fns, e, 0, e.args, base, d);
    case SeqLit(_, _) =>
      var t := TypeOf(fns, e);
      if t.Ok? {
        SeqElemsFrame(fns, e, t.value, 0, e.elems, false, base, d);
      }
    case StructLit(_, _) =>
      StructFieldsFrame(fns, e, 0, e.fields, false, base, d);
    case SeqSlice(_, _, _) =>
      StepSliceFrame(fns, e, base, d);
    case SeqIndex(_, _) =>
      StepIndexFrame(fns, e, base, d);
    case FieldAccess(lhs, _) =>
      StepFrame(fns, lhs, base, d);
    case _ =>
  }

  /** The binary-operator case of `StepFrame`. */
  lemma {:induction false} StepBinopFrame(fns: seq<Func>, e: Expr, base: Log, d: Log)
    requires e.Binop?
    ensures StepBinop(fns, e, Extend(base, d)) == Shift(base, StepBinop(fns, e, d))
    decreases e, 1
  {
    StepFrame(fns, e.l, base, d);
    var s1 := Step(fns, e.l, d);
    if s1.res.Ok? {
      StepFrame(fns, e.r, base, s1.log);
    }
  }

  /** The index case of `StepFrame`. */
  lemma {:induction false} StepIndexFrame(fns: seq<Func>, e: Expr, base: Log, d: Log)
    requires e.SeqIndex?
    ensures StepIndex(fns, e, Extend(base, d)) == Shift(base, StepIndex(fns, e, d))
    decreases e, 1
  {
    StepFrame(fns, e.base, base, d);
    var s1 := Step(fns, e.base, d);
    if s1.res.Ok? {
      StepFrame(fns, e.index, base, s1.log);
    }
  }

  /** The slice case of `StepFrame`. */
  lemma {:induction false} StepSliceFrame(fns: seq<Func>, e: Expr, base: Log, d: Log)
    requires e.SeqSlice?
    ensures StepSlice(fns, e, Extend(base, d)) == Shift(base, StepSlice(fns, e, d))
    decreases e, 1
  {
    var b, lo := e.base, e.low;
    StepFrame(fns, b, base, d);
    var s1 := Step(fns, b, d);
    if s1.res.Ok? && ToValue(s1.res.value.0).Some? && ToValue(s1.res.value.0).value.Seq? {
      var sq := ToValue(s1.res.value.0).value;
      if lo.None? {
        SliceHighFrame(fns, e, s1.res.value.0, sq, 0, None, base, s1.log);
      } else {
        StepFrame(fns, lo.value, base, s1.log);
        var s2 := Step(fns, lo.value, s1.log);
        if s2.res.Ok? && ToValue(s2.res.value.0).Some? && AsInt(ToValue(s2.res.value.0).value).Ok? {
          SliceHighFrame(fns, e, s1.res.value.0, sq, AsInt(ToValue(s2.res.value.0).value).value,
                         Some(s2.res.value.0), base, s2.log);
        }
      }
    }
  }

  lemma {:induction false} CallArgsFrame(fns: seq<Func>, e: Expr, i: nat, args: seq<Expr>, base: Log, d: Log)
    requires e.Call? && i <= |e.args| && |args| == |e.args|
    ensures CallArgs(fns, e, i, args, Extend(base, d)) == Shift(base, CallArgs(fns, e, i, args, d))
    decreases e, 0, |e.args| - i
  {
    if i == |e.args| {
      CallFinishFrame(fns, e, args, base, d);
    } else {
      var a := e.args[i];
      var d1 := if ToValue(a).None? then d.(crits := d.crits + [a]) else d;
      assert Extend(base, d1) ==
        if ToValue(a).None? then Extend(base, d).(crits := Extend(base, d).crits + [a]) else Extend(base, d);
      StepFrame(fns, a, base, d1);
      var s := Step(fns, a, d1);
      if s.res.Ok? {
        CallArgsFrame(fns, e, i + 1, args[i := s.res.value.0], base, s.log);
      }
    }
  }

  lemma CallFinishFrame(fns: seq<Func>, e: Expr, args: seq<Expr>, base: Log, d: Log)
    requires e.Call?
    ensures CallFinish(fns, e, args, Extend(base, d)) == Shift(base, CallFinish(fns, e, args, d))
  {
    var call := Call(e.name, args);
    assert Extend(base, d).(calls := Extend(base, d).calls + [call], crits := Extend(base, d).crits + [call])
      == Extend(base, d.(calls := d.calls + [call], crits := d.crits + [call]));
  }

  lemma {:induction false} SeqElemsFrame(fns: seq<Func>, e: Expr, t: Option<Type>, i: nat, elems: seq<Expr>,
                                         anyStep: bool, base: Log, d: Log)
    requires e.SeqLit? && i <= |e.elems| && |elems| == |e.elems|
    ensures SeqElems(fns, e, t, i, elems, anyStep, Extend(base, d)) == Shift(base, SeqElems(fns, e, t, i, elems, anyStep, d))
    decreases e, 0, |e.elems| - i
  {
    if i < |e.elems| {
      StepFrame(fns, e.elems[i], base, d);
      var s := Step(fns, e.elems[i], d);
      if s.res.Ok? {
        SeqElemsFrame(fns, e, t, i + 1, elems[i := s.res.value.0], anyStep || s.res.value.1, base, s.log);
      }
    }
  }

  lemma {:induction false} StructFieldsFrame(fns: seq<Func>, e: Expr, i: nat, fields: seq<(string, Expr)>,
                                             anyStep: bool, base: Log, d: Log)
    requires e.StructLit? && i <= |e.fields| && |fields| == |e.fields|
    ensures StructFields(fns, e, i, fields, anyStep, Extend(base, d)) == Shift(base, StructFields(fns, e, i, fields, anyStep, d))
    decreases e, 0, |e.fields| - i
  {
    if i < |e.fields| {
      StepFrame(fns, e.fields[i].1, base, d);
      var s := Step(fns, e.fields[i].1, d);
      if s.res.Ok? {
        StructFieldsFrame(fns, e, i + 1, fields[i := (e.fields[i].0, s.res.value.0)], anyStep || s.res.value.1, base, s.log);
      }
    }
  }

  lemma {:induction false} SliceHighFrame(fns: seq<Func>, e: Expr, s: Expr, sq: Val, low: int, lowRed: Option<Expr>,
                                          base: Log, d: Log)
    requires e.SeqSlice? && sq.Seq?
    ensures SliceHigh(fns, e, s, sq, low, lowRed, Extend(base, d)) == Shift(base, SliceHigh(fns, e, s, sq, low, lowRed, d))
    decreases e, 0
  {
    if e.high.None? {
      SliceFinishFrame(fns, e, sq, low, |sq.elems|, base, d);
    } else {
      StepFrame(fns, e.high.value, base, d);
      var s3 := Step(fns, e.high.value, d);
      if s3.res.Ok? && ToValue(s3.res.value.0).Some? && AsInt(ToValue(s3.res.value.0).value).Ok? {
        SliceFinishFrame(fns, e, sq, low, AsInt(ToValue(s3.res.value.0).value).value, base, s3.log);
      }
    }
  }

  lemma SliceFinishFrame(fns: seq<Func>, e: Expr, sq: Val, low: int, high: int, base: Log, d: Log)
    requires e.SeqSlice? && sq.Seq?
    ensures SliceFinish(fns, e, sq, low, high, Extend(base, d)) == Shift(base, SliceFinish(fns, e, sq, low, high, d))
  {
  }

  /** A step's result does not depend on the logs, and the logs only grow: the
      resolved calls and critical expressions recorded before it stay in front. */
  lemma StepLogIndependent(fns: seq<Func>, e: Expr, log: Log)
    ensures Step(fns, e, log).res == Step(fns, e, NoLog()).res
    ensures Step(fns, e, log).log == Extend(log, Step(fns, e, NoLog()).log)
    ensures log.calls <= Step(fns, e, log).log.calls && log.crits <= Step(fns, e, log).log.crits
  {
    StepFrame(fns, e, log, NoLog());
  }

  /** The frame property of `reduceUntilVal`. */
  lemma {:induction false} ReduceFrame(fns: seq<Func>, e: Expr, base: Log, d: Log, fuel: nat)
    ensures Reduce(fns, e, Extend(base, d), fuel).0 == Reduce(fns, e, d, fuel).0
    ensures Reduce(fns, e, Extend(base, d), fuel).1 == Extend(base, Reduce(fns, e, d, fuel).1)
    decreases fuel
  {
    if fuel > 0 {
      StepFrame(fns, e, base, d);
      var s := Step(fns, e, d);
      if s.res.Ok? && ToValue(s.res.value.0).None? {
        ReduceFrame(fns, s.res.value.0, base, s.log, fuel - 1);
      }
    }
  }

  /** What an expression evaluates to does not depend on the logs of the context it
      is evaluated in, and evaluation only appends to those logs. */
  lemma ReduceLogIndependent(fns: seq<Func>, e: Expr, log: Log, fuel: nat)
    ensures Reduce(fns, e, log, fuel).0 == Reduce(fns, e, NoLog(), fuel).0
    ensures log.calls <= Reduce(fns, e, log, fuel).1.calls && log.crits <= Reduce(fns, e, log, fuel).1.crits
  {
    ReduceFrame(fns, e, log, NoLog(), fuel);
  }
}
