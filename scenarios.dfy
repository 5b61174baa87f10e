/** Concrete evaluations: the indexing and slicing examples, and the quirks of the step
    semantics shown on small inputs. */
module Scenarios {
  import opened Base
  import opened Types
  import opened Syntax
  import opened Values
  import opened Registry
  import opened Infer
  import opened Semantics
  import opened StepProps

  function Ints(ns: seq<int>): Expr {
    Tseq(TInt(), seq(|ns|, k requires 0 <= k < |ns| => IntLit(ns[k])))
  }

  /** `{10, 20, 30}[1]` is `20`; `{10, 20, 30}[3]` aborts as out of range. */
  lemma IndexExample()
    ensures Reduce([], SeqIndex(Ints([10, 20, 30]), IntLit(1)), NoLog(), 1) == (Ok(Int(20)), NoLog())
    ensures Reduce([], SeqIndex(Ints([10, 20, 30]), IntLit(3)), NoLog(), 1) == (Fail(IndexOutOfRange), NoLog())
  {
    var s := Ints([10, 20, 30]);
    assert Settled(s);
    IndexOnSettled([], s, 1, NoLog());
    IndexOnSettled([], s, 3, NoLog());
    assert ToValue(s).value.elems[1] == Int(20);
  }

  /** `{1, 2, 3, 4}[1:3]` is `{2, 3}` and is recorded as the last critical expression;
      `{1, 2, 3, 4}[0:2]` is `{1, 2}` and is not. */
  lemma SliceExample()
    ensures var e := SeqSlice(Ints([1, 2, 3, 4]), Some(IntLit(1)), Some(IntLit(3)));
      Reduce([], e, NoLog(), 1) == (Ok(Seq(Some(TSeq(TInt())), [Int(2), Int(3)])), NoLog().(critical := Some(e)))
    ensures var e := SeqSlice(Ints([1, 2, 3, 4]), Some(IntLit(0)), Some(IntLit(2)));
      Reduce([], e, NoLog(), 1) == (Ok(Seq(Some(TSeq(TInt())), [Int(1), Int(2)])), NoLog())
  {
    var s := Ints([1, 2, 3, 4]);
    assert Settled(s);
    var sq := ToValue(s).value;
    assert sq.elems == [Int(1), Int(2), Int(3), Int(4)];
    SliceOnSettled([], s, Some(1), Some(3), NoLog());
    SliceFinishBounds([], SeqSlice(s, Some(IntLit(1)), Some(IntLit(3))), sq, 1, 3, NoLog());
    assert sq.elems[1..3] == [Int(2), Int(3)];
    SliceOnSettled([], s, Some(0), Some(2), NoLog());
    SliceFinishBounds([], SeqSlice(s, Some(IntLit(0)), Some(IntLit(2))), sq, 0, 2, NoLog());
    assert sq.elems[0..2] == [Int(1), Int(2)];
  }

  /** An untagged sequence literal of values is given its inferred tag in a step that
      reports no progress: the expression changes while the flag says it did not. */
  lemma TagInferredWithoutProgress()
    ensures Step([], SeqLit(None, [IntLit(1)]), NoLog()) == Done(Tseq(TInt(), [IntLit(1)]), false, NoLog())
  {
    var e := SeqLit(None, [IntLit(1)]);
    assert TypeOf([], IntLit(1)) == Ok(Some(TInt()));
    assert TypeOf([], e) == Ok(Some(TSeq(TInt())));
    assert forall k | 0 <= k < |e.elems| :: Settled(e.elems[k]);
    SeqElemsOfSettled([], e, Some(TSeq(TInt())), 0, NoLog());
  }

  /** A registry with one function `f(x) = 0`. */
  function ConstFn(): seq<Func> {
    [Func("f", IntLit(0), ["x"], None)]
  }

  /** The resolved-call log holds the call with its stepped (here: freshly tagged)
      argument, while the last critical expression holds the call as it was before
      the step. */
  lemma CriticalHoldsOriginalCall()
    ensures var arg := SeqLit(None, [IntLit(1)]);
      var s := Step(ConstFn(), Call("f", [arg]), NoLog());
      s.res == Ok((IntLit(0), true)) &&
      s.log.calls == [Call("f", [Tseq(TInt(), [IntLit(1)])])] &&
      s.log.critical == Some(Call("f", [arg]))
  {
    var arg := SeqLit(None, [IntLit(1)]);
    var e := Call("f", [arg]);
    TagInferredWithoutProgress();
    var tagged := Tseq(TInt(), [IntLit(1)]);
    assert ToValue(arg).Some? && ToValue(tagged).Some?;
    assert [arg][0 := tagged] == [tagged];
    assert CallArgs(ConstFn(), e, 1, [tagged], NoLog()) == CallFinish(ConstFn(), e, [tagged], NoLog());
    assert CallArgs(ConstFn(), e, 0, [arg], NoLog()) == CallArgs(ConstFn(), e, 1, [tagged], NoLog());
    assert GetFn(ConstFn(), "f") == Ok(ConstFn()[0]);
    assert SubstParams(IntLit(0), ["x"], [tagged], 0) == IntLit(0);
  }

  /** Parameters are substituted one after another: substituting `a := b` and then
      `b := 1` into `g(a, b)` also rewrites the `b` that the first substitution
      brought in, giving `g(1, 1)` rather than `g(b, 1)`. */
  lemma ParametersSubstitutedInOrder()
    ensures SubstParams(Call("g", [Var("a"), Var("b")]), ["a", "b"], [Var("b"), IntLit(1)], 0)
            == Call("g", [IntLit(1), IntLit(1)])
  {
    var c1 := Subst(Call("g", [Var("a"), Var("b")]), "a", Var("b"));
    assert c1.args[0] == Var("b") && c1.args[1] == Var("b");
    var c2 := Subst(c1, "b", IntLit(1));
    assert c2.args[0] == IntLit(1) && c2.args[1] == IntLit(1);
    assert c2.args == [IntLit(1), IntLit(1)];
  }
}
