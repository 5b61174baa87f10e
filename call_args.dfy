/** The call-argument visitor (call_args.go): collects the arguments of a call that
    are not yet values. */
module CallArgsVisitor {
  import opened Base
  import opened Syntax

  /** The arguments among `args` that do not convert to a value, in order. */
  function NonValues(args: seq<Expr>): (r: seq<Expr>)
    ensures |r| <= |args|
  {
    if |args| == 0 then []
    else
      var last := args[|args| - 1];
      NonValues(args[..|args| - 1]) + (if ToValue(last).None? then [last] else [])
  }

  /** The collected arguments are exactly the arguments that are not values. */
  lemma {:induction false} NonValuesMembers(args: seq<Expr>)
    ensures forall x | x in NonValues(args) :: x in args && ToValue(x).None?
    ensures forall x | x in args && ToValue(x).None? :: x in NonValues(args)
    decreases |args|
  {
    if |args| > 0 {
      var init := args[..|args| - 1];
      var last := args[|args| - 1];
      NonValuesMembers(init);
      assert args == init + [last];
    }
  }

  /** One argument is collected exactly when it is not a value. */
  lemma NonValuesSingleton(x: Expr)
    ensures NonValues([x]) == if ToValue(x).None? then [x] else []
  {
    assert [x][..0] == [];
  }

  /** Collecting distributes over concatenation: the non-values of `a + b` are those
      of `a` followed by those of `b`, so the collected arguments keep their argument
      order and their multiplicity. */
  lemma {:induction false} NonValuesAppend(a: seq<Expr>, b: seq<Expr>)
    ensures NonValues(a + b) == NonValues(a) + NonValues(b)
    decreases |b|
  {
    if |b| == 0 {
      assert a + b == a;
    } else {
      var b' := b[..|b| - 1];
      var last := b[|b| - 1];
      assert (a + b)[..|a + b| - 1] == a + b';
      assert (a + b)[|a + b| - 1] == last;
      assert b[..|b| - 1] == b';
      NonValuesAppend(a, b');
    }
  }

  /** What one `Visit` appends: the direct non-value arguments of a call, nothing for
      any other node. */
  function Collected(e: Expr): seq<Expr> {
    if e.Call? then NonValues(e.args) else []
  }

  /** A `Var` argument is never collected: it converts to a symbolic value. Nor is
      anything nested inside an argument: only direct arguments are candidates. */
  lemma CollectedIsDirectNonValueArgs(e: Expr)
    ensures forall x | x in Collected(e) :: e.Call? && x in e.args && !x.Var? && ToValue(x).None?
    ensures e.Call? ==> forall k | 0 <= k < |e.args| ::
      (e.args[k] in Collected(e) <==> ToValue(e.args[k]).None?)
  {
    if e.Call? {
      NonValuesMembers(e.args);
    }
  }

  /** `call_args`, whose `exprs` grows by one `Visit` after another. */
  class CallArgs {
    var exprs: seq<Expr>

    constructor ()
      ensures exprs == []
    {
      exprs := [];
    }

    /** `Visit`: appends the non-value arguments of a call, in argument order; leaves
        `exprs` as it was for any other node. */
    method Visit(e: Expr)
      modifies this
      ensures exprs == old(exprs) + Collected(e)
    {
      if e.Call? {
        var i := 0;
        while i < |e.args|
          invariant 0 <= i <= |e.args|
          invariant exprs == old(exprs) + NonValues(e.args[..i])
        {
          var v := e.args[i];
          assert e.args[..i + 1][..i] == e.args[..i];
          if ToValue(v).None? {
            exprs := exprs + [v];
          }
          i := i + 1;
        }
        assert e.args[..i] == e.args;
      }
    }
  }
}
