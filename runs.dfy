/** Multi-step evaluation: a run of steps that each report progress, the congruences
    that lift a run of a sub-expression into its enclosing node, and the connection to
    `reduceUntilVal`. */
module Multistep {
  import opened Base
  import opened Syntax
  import opened Semantics
  import opened StepProps

  /** `e` (with logs `log`) reaches `e2` (with logs `log2`) in `n` steps, each of which
      reports progress and all but the last of which leave a non-value. */
  predicate Runs(fns: seq<Func>, e: Expr, log: Log, n: nat, e2: Expr, log2: Log)
    decreases n
  {
    if n == 0 then e == e2 && log == log2
    else
      var s := Step(fns, e, log);
      s.res.Ok? && s.res.value.1 &&
      (n > 1 ==> ToValue(s.res.value.0).None?) &&
      Runs(fns, s.res.value.0, s.log, n - 1, e2, log2)
  }

  /** Two runs joined at a non-value form one run. */
  lemma {:induction false} RunsTrans(fns: seq<Func>, a: Expr, la: Log, n: nat, b: Expr, lb: Log,
                                     m: nat, c: Expr, lc: Log)
    requires Runs(fns, a, la, n, b, lb) && Runs(fns, b, lb, m, c, lc)
    requires n > 0 && m > 0 ==> ToValue(b).None?
    ensures Runs(fns, a, la, n + m, c, lc)
    decreases n
  {
    if n > 0 {
      var s := Step(fns, a, la);
      assert s.res.Ok? && s.res.value.1;
      var a' := s.res.value.0;
      assert Runs(fns, a', s.log, n - 1, b, lb);
      RunsTrans(fns, a', s.log, n - 1, b, lb, m, c, lc);
      assert n + m > 1 ==> ToValue(a').None? by {
        if n == 1 { assert a' == b; }
      }
    }
  }

  /** A step that makes progress is a run of length one. */
  lemma RunsOne(fns: seq<Func>, e: Expr, log: Log, e2: Expr, log2: Log)
    requires Step(fns, e, log) == Done(e2, true, log2)
    ensures Runs(fns, e, log, 1, e2, log2)
  {
  }

  /** `reduceUntilVal` follows a run that ends in a value and returns that value, given
      at least as much fuel as the run has steps. */
  lemma {:induction false} RunsReduce(fns: seq<Func>, e: Expr, log: Log, n: nat, v: Expr, log2: Log, fuel: nat)
    requires Runs(fns, e, log, n, v, log2) && n > 0 && ToValue(v).Some? && fuel >= n
    ensures Reduce(fns, e, log, fuel) == (Ok(ToValue(v).value), log2)
    decreases n
  {
    var s := Step(fns, e, log);
    if n > 1 {
      RunsReduce(fns, s.res.value.0, s.log, n - 1, v, log2, fuel - 1);
    }
  }

  /** A run of the condition is a run of the conditional. */
  lemma {:induction false} RunsInCondition(fns: seq<Func>, c: Expr, log: Log, n: nat, c2: Expr, log2: Log,
                                           yes: Expr, no: Expr)
    requires Runs(fns, c, log, n, c2, log2)
    ensures Runs(fns, Ternop(c, yes, no), log, n, Ternop(c2, yes, no), log2)
    decreases n
  {
    if n > 0 {
      var s := Step(fns, c, log);
      RunsInCondition(fns, s.res.value.0, s.log, n - 1, c2, log2, yes, no);
    }
  }

  /** A run of the left operand is a run of the binary operation. */
  lemma {:induction false} RunsInLeft(fns: seq<Func>, op: BinopKind, l: Expr, log: Log, n: nat, l2: Expr, log2: Log,
                                      r: Expr)
    requires Runs(fns, l, log, n, l2, log2)
    ensures Runs(fns, Binop(op, l, r), log, n, Binop(op, l2, r), log2)
    decreases n
  {
    if n > 0 {
      var s := Step(fns, l, log);
      RunsInLeft(fns, op, s.res.value.0, s.log, n - 1, l2, log2, r);
    }
  }

  /** Once the left operand is a value (`true` for `And`), a run of the right operand
      is a run of the binary operation; the first step fills in the left operand's
      tags, which no later step changes. */
  lemma {:induction false} RunsInRight(fns: seq<Func>, op: BinopKind, l: Expr, r: Expr, log: Log, n: nat,
                                       r2: Expr, log2: Log)
    requires ToValue(l).Some? && (op == And ==> ToValue(l) == Some(Bool(true)))
    requires Runs(fns, r, log, n, r2, log2)
    ensures Runs(fns, Binop(op, l, r), log, n, Binop(op, if n == 0 then l else Filled(fns, l), r2), log2)
    decreases n
  {
    if n > 0 {
      ValueSteps(fns, l, log);
      FilledValue(l, Filled(fns, l));
      FilledFixed(fns, l);
      var s := Step(fns, r, log);
      RunsInRight(fns, op, Filled(fns, l), s.res.value.0, s.log, n - 1, r2, log2);
    }
  }
}
