/** The specification-function library of gobra.go, as data in the expression language,
    and what evaluating its functions does. Go maps of struct fields become association
    lists in the order `parts`, `rooted`. */
module Gobra {
  import opened Base
  import opened Types
  import opened Syntax
  import opened Values
  import opened Registry
  import opened Infer
  import opened Semantics
  import opened StepProps
  import opened Multistep

  /** `chr`: the integer literal of a byte. */
  function Chr(b: bv8): (e: Expr)
    ensures e.IntLit? && 0 <= e.n < 256
  {
    IntLit(b as int)
  }

  /** `'/'` */
  const Slash: bv8 := 47

  /** `Len(x)`: a call of the built-in `len`. */
  function Len(x: Expr): Expr {
    Call("len", [x])
  }

  /** `lastIndex(s)`: `len(s) - 1`. */
  function LastIndex(s: Expr): Expr {
    Binop(Sub, Len(s), IntLit(1))
  }

  function ByteSeq(): Type {
    TSeq(TByte())
  }

  /** `bytes.SpecSplit(b, sep)`: `bytes.SpecSplitInner(b, sep, seq[byte]{})`. */
  function SpecSplit(): Func {
    Func("bytes.SpecSplit",
         Call("bytes.SpecSplitInner", [Var("b"), Var("sep"), Tseq(TByte(), [])]),
         ["b", "sep"], None)
  }

  /** `bytes.SpecSplitInner(s, sep, ac)`. */
  function SpecSplitInner(): Func {
    Func("bytes.SpecSplitInner",
         Ternop(
           Binop(EqEq, Call("len", [Var("s")]), IntLit(0)),
           Ternop(
             Binop(EqEq, Call("len", [Var("ac")]), IntLit(0)),
             Tseq(ByteSeq(), []),
             Tseq(ByteSeq(), [Var("ac")])),
           Ternop(
             Binop(EqEq, Var("sep"), Var("s")),
             Tseq(ByteSeq(), [Var("ac"), Tseq(TByte(), [])]),
             Ternop(
               Binop(EqEq, SeqSlice(Var("s"), None, Some(Call("len", [Var("sep")]))), Var("sep")),
               Binop(Concat,
                     Tseq(ByteSeq(), [Var("ac")]),
                     Call("bytes.SpecSplitInner",
                          [SeqSlice(Var("s"), Some(Call("len", [Var("sep")])), None),
                           Var("sep"),
                           Tseq(TByte(), [])])),
               Call("bytes.SpecSplitInner",
                    [SeqSlice(Var("s"), Some(IntLit(1)), None),
                     Var("sep"),
                     Binop(Concat, Var("ac"), Tseq(TByte(), [SeqIndex(Var("s"), IntLit(0))]))])))),
         ["s", "sep", "ac"], None)
  }

  /** `ToPath(path)`: `toPath(bytes.SpecSplit(pathContents(path), {'/'}), isRooted(path))`. */
  function ToPath(): Func {
    Func("ToPath",
         Call("toPath",
              [Call("bytes.SpecSplit", [Call("pathContents", [Var("path")]), Tseq(TByte(), [Chr(Slash)])]),
               Call("isRooted", [Var("path")])]),
         ["path"], None)
  }

  /** `newPath(rooted)`: a `Path` with no parts. */
  function NewPath(): Func {
    Func("newPath",
         StructLit("Path", [("parts", Tseq(TAbstract("Segment"), [])), ("rooted", Var("rooted"))]),
         ["rooted"], None)
  }

  /** `toPath(flat, rooted)`: `len(flat) == 0 ? newPath(rooted)
      : pathAppend(toPath(flat[:len(flat)-1], rooted), flat[len(flat)-1])`. */
  function ToPathRec(): Func {
    Func("toPath",
         Ternop(
           Binop(EqEq, Len(Var("flat")), IntLit(0)),
           Call("newPath", [Var("rooted")]),
           Call("pathAppend",
                [Call("toPath", [SeqSlice(Var("flat"), None, Some(LastIndex(Var("flat")))), Var("rooted")]),
                 SeqIndex(Var("flat"), Binop(Sub, Len(Var("flat")), IntLit(1)))])),
         ["flat", "rooted"], None)
  }

  /** `pathContents(p)`: `isRooted(p) ? p[1:] : p`. */
  function PathContents(): Func {
    Func("pathContents",
         Ternop(Call("isRooted", [Var("p")]), SeqSlice(Var("p"), Some(IntLit(1)), None), Var("p")),
         ["p"], None)
  }

  /** `isRooted(p)`: `len(p) > 0 && p[0] == '/'`. */
  function IsRooted(): Func {
    Func("isRooted",
         Binop(And,
               Binop(Gt, Len(Var("p")), IntLit(0)),
               Binop(EqEq, SeqIndex(Var("p"), IntLit(0)), Chr(Slash))),
         ["p"], None)
  }

  /** `pathAppend(p, s)`: a `Path` whose parts are `p`'s followed by `s`, rooted as `p`. */
  function PathAppend(): Func {
    Func("pathAppend",
         StructLit("Path",
                   [("parts", Binop(Concat, FieldAccess(Var("p"), "parts"), Tseq(TAbstract("Segment"), [Var("s")]))),
                    ("rooted", FieldAccess(Var("p"), "rooted"))]),
         ["p", "s"], Some(TAbstract("Path")))
  }

  /** The whole library as one registry. */
  function Library(): (fns: seq<Func>)
    ensures DistinctNames(fns)
    ensures |fns| == 8
  {
    [SpecSplit(), SpecSplitInner(), ToPath(), NewPath(), ToPathRec(), PathContents(), IsRooted(), PathAppend()]
  }

  /** A byte-string literal: a tagged sequence literal of integer literals. */
  predicate ByteString(e: Expr) {
    e.SeqLit? && e.typ.Some? && forall k | 0 <= k < |e.elems| :: e.elems[k].IntLit?
  }

  /** `lastIndex` of a sequence value is its length minus one, in two steps, with
      nothing logged. */
  lemma LastIndexRuns(fns: seq<Func>, s: Expr, log: Log)
    requires ToValue(s).Some? && s.SeqLit?
    ensures Runs(fns, LastIndex(s), log, 2, IntLit(|s.elems| - 1), log)
  {
    CallLen(fns, s, log);
    var mid := Binop(Sub, IntLit(|s.elems|), IntLit(1));
    assert Step(fns, LastIndex(s), log) == Done(mid, true, log);
    BinopOnSettled(fns, Sub, IntLit(|s.elems|), IntLit(1), log);
  }

  lemma ByteStringSettled(p: Expr)
    requires ByteString(p)
    ensures Settled(p)
  {
  }

  /** The log entries of unfolding `call`: it is appended to the resolved calls and the
      critical expressions and becomes the last critical expression. */
  function Unfolded(log: Log, call: Expr): Log {
    log.(calls := log.calls + [call], crits := log.crits + [call], critical := Some(call))
  }

  /** Unfolding `isRooted(p)` replaces the call by the body with `p` in place. */
  lemma IsRootedUnfolds(fns: seq<Func>, p: Expr, log: Log)
    requires GetFn(fns, "isRooted") == Ok(IsRooted()) && ByteString(p)
    ensures var call := Call("isRooted", [p]);
      Step(fns, call, log) ==
        Done(Binop(And, Binop(Gt, Len(p), IntLit(0)), Binop(EqEq, SeqIndex(p, IntLit(0)), IntLit(47))),
             true, Unfolded(log, call))
  {
    ByteStringSettled(p);
    CallUnfoldSettled(fns, "isRooted", [p], log);
    IsRootedBody(p);
  }

  lemma IsRootedBody(p: Expr)
    requires ByteString(p)
    ensures SubstParams(IsRooted().body, IsRooted().vars, [p], 0) ==
      Binop(And, Binop(Gt, Len(p), IntLit(0)), Binop(EqEq, SeqIndex(p, IntLit(0)), IntLit(47)))
  {
    assert Subst(Len(Var("p")), "p", p) == Len(p);
  }

  /** The condition `len(p) > 0` of `isRooted` after unfolding: three steps in all. */
  lemma IsRootedLength(fns: seq<Func>, p: Expr, log: Log)
    requires GetFn(fns, "isRooted") == Ok(IsRooted()) && ByteString(p)
    ensures var call := Call("isRooted", [p]);
      Runs(fns, call, log, 3,
           Binop(And, BoolLit(|p.elems| > 0), Binop(EqEq, SeqIndex(p, IntLit(0)), IntLit(47))),
           Unfolded(log, call))
  {
    ByteStringSettled(p);
    var call := Call("isRooted", [p]);
    var log1 := Unfolded(log, call);
    var n := |p.elems|;
    var r := Binop(EqEq, SeqIndex(p, IntLit(0)), IntLit(47));
    IsRootedUnfolds(fns, p, log);
    var b1 := Binop(And, Binop(Gt, Len(p), IntLit(0)), r);
    assert Runs(fns, call, log, 1, b1, log1);
    CallLenSettled(fns, p, log1);
    assert Runs(fns, Len(p), log1, 1, IntLit(n), log1);
    RunsInLeft(fns, Gt, Len(p), log1, 1, IntLit(n), log1, IntLit(0));
    BinopOnSettled(fns, Gt, IntLit(n), IntLit(0), log1);
    assert Runs(fns, Binop(Gt, IntLit(n), IntLit(0)), log1, 1, BoolLit(n > 0), log1);
    RunsTrans(fns, Binop(Gt, Len(p), IntLit(0)), log1, 1, Binop(Gt, IntLit(n), IntLit(0)), log1,
              1, BoolLit(n > 0), log1);
    RunsInLeft(fns, And, Binop(Gt, Len(p), IntLit(0)), log1, 2, BoolLit(n > 0), log1, r);
    RunsTrans(fns, call, log, 1, b1, log1, 2, Binop(And, BoolLit(n > 0), r), log1);
  }

  /** `true && p[0] == '/'` for a non-empty byte string: three steps. */
  lemma IsRootedFirstByte(fns: seq<Func>, p: Expr, log: Log)
    requires ByteString(p) && |p.elems| > 0
    ensures Runs(fns, Binop(And, BoolLit(true), Binop(EqEq, SeqIndex(p, IntLit(0)), IntLit(47))), log, 3,
                 BoolLit(p.elems[0] == IntLit(47)), log)
  {
    ByteStringSettled(p);
    var c0 := p.elems[0].n;
    var eq := c0 == 47;
    var r := Binop(EqEq, SeqIndex(p, IntLit(0)), IntLit(47));
    IndexOnSettled(fns, p, 0, log);
    assert Runs(fns, SeqIndex(p, IntLit(0)), log, 1, IntLit(c0), log);
    RunsInLeft(fns, EqEq, SeqIndex(p, IntLit(0)), log, 1, IntLit(c0), log, IntLit(47));
    var r1 := Binop(EqEq, IntLit(c0), IntLit(47));
    BinopOnSettled(fns, EqEq, IntLit(c0), IntLit(47), log);
    assert Runs(fns, r1, log, 1, BoolLit(eq), log);
    RunsTrans(fns, r, log, 1, r1, log, 1, BoolLit(eq), log);
    RunsInRight(fns, And, BoolLit(true), r, log, 2, BoolLit(eq), log);
    FilledSettled(fns, BoolLit(true));
    var b5 := Binop(And, BoolLit(true), BoolLit(eq));
    BinopOnSettled(fns, And, BoolLit(true), BoolLit(eq), log);
    assert Runs(fns, b5, log, 1, BoolLit(eq), log);
    RunsTrans(fns, Binop(And, BoolLit(true), r), log, 2, b5, log, 1, BoolLit(eq), log);
  }

  /** `isRooted(p)` of a byte string evaluates to `len(p) > 0 && p[0] == '/'`, in four
      steps when `p` is empty and six otherwise. Because `And` short-circuits, `p[0]`,
      which fails on an empty `p`, is never evaluated. */
  lemma IsRootedRuns(fns: seq<Func>, p: Expr, log: Log)
    requires GetFn(fns, "isRooted") == Ok(IsRooted()) && ByteString(p)
    ensures var call := Call("isRooted", [p]);
      Runs(fns, call, log, if |p.elems| == 0 then 4 else 6,
           BoolLit(|p.elems| > 0 && p.elems[0] == IntLit(47)), Unfolded(log, call))
    ensures |p.elems| == 0 ==> Step(fns, SeqIndex(p, IntLit(0)), log).res == Fail(IndexOutOfRange)
  {
    ByteStringSettled(p);
    var call := Call("isRooted", [p]);
    var log1 := Unfolded(log, call);
    var r := Binop(EqEq, SeqIndex(p, IntLit(0)), IntLit(47));
    var b3 := Binop(And, BoolLit(|p.elems| > 0), r);
    IsRootedLength(fns, p, log);
    if |p.elems| == 0 {
      AndShortCircuit(fns, BoolLit(false), r, log1);
      assert Runs(fns, b3, log1, 1, BoolLit(false), log1);
      RunsTrans(fns, call, log, 3, b3, log1, 1, BoolLit(false), log1);
      IndexOnSettled(fns, p, 0, log);
    } else {
      IsRootedFirstByte(fns, p, log1);
      RunsTrans(fns, call, log, 3, b3, log1, 3, BoolLit(p.elems[0] == IntLit(47)), log1);
    }
  }

  /** Unfolding `pathContents(p)`. */
  lemma PathContentsUnfolds(fns: seq<Func>, p: Expr, log: Log)
    requires GetFn(fns, "pathContents") == Ok(PathContents()) && ByteString(p)
    ensures var pc := Call("pathContents", [p]);
      Step(fns, pc, log) ==
        Done(Ternop(Call("isRooted", [p]), SeqSlice(p, Some(IntLit(1)), None), p), true, Unfolded(log, pc))
  {
    ByteStringSettled(p);
    CallUnfoldSettled(fns, "pathContents", [p], log);
    assert Subst(Call("isRooted", [Var("p")]), "p", p) == Call("isRooted", [p]);
  }

  /** `pathContents(p)` unfolds and evaluates its condition `isRooted(p)` to a boolean. */
  lemma PathContentsCondition(fns: seq<Func>, p: Expr, log: Log)
    requires GetFn(fns, "pathContents") == Ok(PathContents()) && GetFn(fns, "isRooted") == Ok(IsRooted())
    requires ByteString(p)
    ensures var rooted := |p.elems| > 0 && p.elems[0] == IntLit(47);
      var pc := Call("pathContents", [p]);
      Runs(fns, pc, log, if |p.elems| == 0 then 5 else 7,
           Ternop(BoolLit(rooted), SeqSlice(p, Some(IntLit(1)), None), p),
           Unfolded(Unfolded(log, pc), Call("isRooted", [p])))
  {
    var rooted := |p.elems| > 0 && p.elems[0] == IntLit(47);
    var pc := Call("pathContents", [p]);
    var ir := Call("isRooted", [p]);
    var slice := SeqSlice(p, Some(IntLit(1)), None);
    var log1 := Unfolded(log, pc);
    var log2 := Unfolded(log1, ir);
    PathContentsUnfolds(fns, p, log);
    var t0 := Ternop(ir, slice, p);
    assert Runs(fns, pc, log, 1, t0, log1);
    var k := if |p.elems| == 0 then 4 else 6;
    IsRootedRuns(fns, p, log1);
    RunsInCondition(fns, ir, log1, k, BoolLit(rooted), log2, slice, p);
    RunsTrans(fns, pc, log, 1, t0, log1, k, Ternop(BoolLit(rooted), slice, p), log2);
  }

  /** `pathContents(p)` selects its branch after evaluating `isRooted(p)`. */
  lemma PathContentsBranch(fns: seq<Func>, p: Expr, log: Log)
    requires GetFn(fns, "pathContents") == Ok(PathContents()) && GetFn(fns, "isRooted") == Ok(IsRooted())
    requires ByteString(p)
    ensures var rooted := |p.elems| > 0 && p.elems[0] == IntLit(47);
      var pc := Call("pathContents", [p]);
      Runs(fns, pc, log, if |p.elems| == 0 then 6 else 8,
           if rooted then SeqSlice(p, Some(IntLit(1)), None) else p,
           Unfolded(Unfolded(log, pc), Call("isRooted", [p])))
  {
    ByteStringSettled(p);
    var rooted := |p.elems| > 0 && p.elems[0] == IntLit(47);
    var pc := Call("pathContents", [p]);
    var slice := SeqSlice(p, Some(IntLit(1)), None);
    var log2 := Unfolded(Unfolded(log, pc), Call("isRooted", [p]));
    var k := if |p.elems| == 0 then 5 else 7;
    PathContentsCondition(fns, p, log);
    var t1 := Ternop(BoolLit(rooted), slice, p);
    TernopOnSettled(fns, BoolLit(rooted), slice, p, log2);
    var branch := if rooted then slice else p;
    RunsOne(fns, t1, log2, branch, log2);
    RunsTrans(fns, pc, log, k, t1, log2, 1, branch, log2);
  }

  /** `pathContents(p)` of a byte string: `p` without its first byte when `isRooted(p)`,
      `p` itself otherwise. Both calls are logged as resolved and critical, and when
      the first byte is dropped the slice `p[1:]` is the last critical expression. */
  lemma PathContentsEvaluates(fns: seq<Func>, p: Expr, log: Log, fuel: nat)
    requires GetFn(fns, "pathContents") == Ok(PathContents()) && GetFn(fns, "isRooted") == Ok(IsRooted())
    requires ByteString(p) && fuel >= 9
    ensures ToValue(p).Some? && ToValue(p).value.Seq?
    ensures var rooted := |p.elems| > 0 && p.elems[0] == IntLit(47);
      var pv := ToValue(p).value;
      var pc := Call("pathContents", [p]);
      var ir := Call("isRooted", [p]);
      var r := Reduce(fns, pc, log, fuel);
      r.0 == Ok(if rooted then Seq(pv.typ, pv.elems[1..]) else pv) &&
      r.1.calls == log.calls + [pc, ir] && r.1.crits == log.crits + [pc, ir] &&
      r.1.critical == Some(if rooted then SeqSlice(p, Some(IntLit(1)), None) else ir)
  {
    ByteStringSettled(p);
    StepSettled(fns, p, log);
    var pv := ToValue(p).value;
    var rooted := |p.elems| > 0 && p.elems[0] == IntLit(47);
    var pc := Call("pathContents", [p]);
    var ir := Call("isRooted", [p]);
    var slice := SeqSlice(p, Some(IntLit(1)), None);
    var log2 := Unfolded(Unfolded(log, pc), ir);
    var k := if |p.elems| == 0 then 6 else 8;
    PathContentsBranch(fns, p, log);
    assert log2.calls == log.calls + [pc, ir] && log2.crits == log.crits + [pc, ir];
    if rooted {
      DropFirstStep(fns, p, log2);
      var s := Step(fns, slice, log2);
      assert Runs(fns, slice, log2, 1, s.res.value.0, s.log);
      RunsTrans(fns, pc, log, k, slice, log2, 1, s.res.value.0, s.log);
      RunsReduce(fns, pc, log, k + 1, s.res.value.0, s.log, fuel);
    } else {
      RunsReduce(fns, pc, log, k, p, log2, fuel);
    }
  }

  /** `p[1:]` of a non-empty byte string: one step to the value without the first byte,
      which records the slice as the last critical expression. */
  lemma DropFirstStep(fns: seq<Func>, p: Expr, log: Log)
    requires ByteString(p) && |p.elems| > 0
    ensures ToValue(p).Some? && ToValue(p).value.Seq?
    ensures var pv := ToValue(p).value;
      var slice := SeqSlice(p, Some(IntLit(1)), None);
      var s := Step(fns, slice, log);
      s.res.Ok? && s.res.value.1 && ToValue(s.res.value.0) == Some(Seq(pv.typ, pv.elems[1..])) &&
      s.log == log.(critical := Some(slice))
  {
    ByteStringSettled(p);
    StepSettled(fns, p, log);
    var pv := ToValue(p).value;
    var slice := SeqSlice(p, Some(IntLit(1)), None);
    SliceOnSettled(fns, p, Some(1), None, log);
    SliceFinishBounds(fns, slice, pv, 1, |pv.elems|, log);
    assert pv.elems[1..|pv.elems|] == pv.elems[1..];
  }

  /** A byte string mentions no variable, so substitution leaves it alone. */
  lemma ByteStringClosed(p: Expr, x: string, to: Expr)
    requires ByteString(p)
    ensures !Mentions(p, x) && Subst(p, x, to) == p
  {
  }

  /** `len(x) == 0` for a settled sequence literal: two steps, nothing logged. */
  lemma LenIsZeroRuns(fns: seq<Func>, x: Expr, log: Log)
    requires Settled(x) && x.SeqLit?
    ensures Runs(fns, Binop(EqEq, Len(x), IntLit(0)), log, 2, BoolLit(|x.elems| == 0), log)
  {
    var n := |x.elems|;
    CallLenSettled(fns, x, log);
    assert Runs(fns, Len(x), log, 1, IntLit(n), log);
    RunsInLeft(fns, EqEq, Len(x), log, 1, IntLit(n), log, IntLit(0));
    BinopOnSettled(fns, EqEq, IntLit(n), IntLit(0), log);
    assert Runs(fns, Binop(EqEq, IntLit(n), IntLit(0)), log, 1, BoolLit(n == 0), log);
    RunsTrans(fns, Binop(EqEq, Len(x), IntLit(0)), log, 1, Binop(EqEq, IntLit(n), IntLit(0)), log,
              1, BoolLit(n == 0), log);
  }

  /** The first two branches of `bytes.SpecSplitInner`, for an empty `s`. */
  function SplitEmptyCase(ac: Expr): Expr {
    Ternop(Binop(EqEq, Len(ac), IntLit(0)), Tseq(ByteSeq(), []), Tseq(ByteSeq(), [ac]))
  }

  /** Substitution into a one-argument call substitutes into the argument. */
  lemma SubstCall1(name: string, e: Expr, x: string, to: Expr)
    ensures Subst(Call(name, [e]), x, to) == Call(name, [Subst(e, x, to)])
  {
  }

  lemma SubstLen(e: Expr, x: string, to: Expr)
    ensures Subst(Len(e), x, to) == Len(Subst(e, x, to))
  {
  }

  lemma SubstSingleton(t: Type, e: Expr, x: string, to: Expr)
    ensures Subst(Tseq(t, [e]), x, to) == Tseq(t, [Subst(e, x, to)])
  {
  }

  lemma SubstEmpty(t: Type, x: string, to: Expr)
    ensures Subst(Tseq(t, []), x, to) == Tseq(t, [])
  {
  }

  lemma SplitLenSubst(ac: Expr, sep: Expr, s: Expr)
    requires ByteString(s)
    ensures Subst(Subst(Subst(Binop(EqEq, Len(Var("s")), IntLit(0)), "s", s), "sep", sep), "ac", ac)
            == Binop(EqEq, Len(s), IntLit(0))
  {
    ByteStringClosed(s, "sep", sep);
    ByteStringClosed(s, "ac", ac);
    SubstLen(Var("s"), "s", s);
    SubstLen(s, "sep", sep);
    SubstLen(s, "ac", ac);
  }

  lemma SplitEmptyCaseSubst(ac: Expr, sep: Expr, s: Expr)
    ensures Subst(Subst(Subst(SplitEmptyCase(Var("ac")), "s", s), "sep", sep), "ac", ac) == SplitEmptyCase(ac)
  {
    SubstLen(Var("ac"), "s", s);
    SubstLen(Var("ac"), "sep", sep);
    SubstLen(Var("ac"), "ac", ac);
    SubstEmpty(ByteSeq(), "s", s);
    SubstEmpty(ByteSeq(), "sep", sep);
    SubstEmpty(ByteSeq(), "ac", ac);
    SubstSingleton(ByteSeq(), Var("ac"), "s", s);
    SubstSingleton(ByteSeq(), Var("ac"), "sep", sep);
    SubstSingleton(ByteSeq(), Var("ac"), "ac", ac);
  }

  /** Unfolding `bytes.SpecSplitInner(s, sep, ac)`: the parameters are substituted in
      the order `s`, `sep`, `ac`; the outer condition tests `len(s) == 0` and its
      first branch tests `len(ac) == 0`. */
  lemma SpecSplitInnerUnfolds(fns: seq<Func>, s: Expr, sep: Expr, ac: Expr, log: Log)
    requires GetFn(fns, "bytes.SpecSplitInner") == Ok(SpecSplitInner())
    requires ByteString(s) && ByteString(ac) && Settled(sep)
    ensures var call := Call("bytes.SpecSplitInner", [s, sep, ac]);
      var st := Step(fns, call, log);
      st.res.Ok? && st.res.value.1 && st.log == Unfolded(log, call) &&
      st.res.value.0.Ternop? &&
      st.res.value.0.cond == Binop(EqEq, Len(s), IntLit(0)) &&
      st.res.value.0.yes == SplitEmptyCase(ac)
  {
    ByteStringSettled(s);
    ByteStringSettled(ac);
    var args := [s, sep, ac];
    assert forall k | 0 <= k < |args| :: Settled(args[k]);
    CallUnfoldSettled(fns, "bytes.SpecSplitInner", args, log);
    SpecSplitInnerBody(s, sep, ac);
  }

  /** The body of `bytes.SpecSplitInner` with its parameters substituted. */
  lemma SpecSplitInnerBody(s: Expr, sep: Expr, ac: Expr)
    requires ByteString(s)
    ensures var b := SubstParams(SpecSplitInner().body, SpecSplitInner().vars, [s, sep, ac], 0);
      b.Ternop? && b.cond == Binop(EqEq, Len(s), IntLit(0)) && b.yes == SplitEmptyCase(ac)
  {
    var body := SpecSplitInner().body;
    var b1 := Subst(body, "s", s);
    var b2 := Subst(b1, "sep", sep);
    var b3 := Subst(b2, "ac", ac);
    assert SubstParams(body, SpecSplitInner().vars, [s, sep, ac], 0) == b3;
    SplitLenSubst(ac, sep, s);
    SplitEmptyCaseSubst(ac, sep, s);
  }

  /** `bytes.SpecSplitInner(s, sep, ac)` with an empty `s` reaches, in seven steps, the
      empty sequence of byte strings when `ac` is empty and `{ac}` otherwise. */
  lemma SpecSplitInnerEmptyRuns(fns: seq<Func>, s: Expr, sep: Expr, ac: Expr, log: Log)
    requires GetFn(fns, "bytes.SpecSplitInner") == Ok(SpecSplitInner())
    requires ByteString(s) && |s.elems| == 0 && ByteString(ac) && Settled(sep)
    ensures var call := Call("bytes.SpecSplitInner", [s, sep, ac]);
      Runs(fns, call, log, 7,
           if |ac.elems| == 0 then Tseq(ByteSeq(), []) else Tseq(ByteSeq(), [ac]), Unfolded(log, call))
  {
    ByteStringSettled(s);
    ByteStringSettled(ac);
    var call := Call("bytes.SpecSplitInner", [s, sep, ac]);
    var log1 := Unfolded(log, call);
    SpecSplitInnerUnfolds(fns, s, sep, ac, log);
    var t0 := Step(fns, call, log).res.value.0;
    var c := Binop(EqEq, Len(s), IntLit(0));
    var y := SplitEmptyCase(ac);
    assert t0 == Ternop(c, y, t0.no);
    assert Runs(fns, call, log, 1, t0, log1);
    LenIsZeroRuns(fns, s, log1);
    RunsInCondition(fns, c, log1, 2, BoolLit(true), log1, y, t0.no);
    RunsTrans(fns, call, log, 1, t0, log1, 2, Ternop(BoolLit(true), y, t0.no), log1);
    TernopOnSettled(fns, BoolLit(true), y, t0.no, log1);
    assert Runs(fns, Ternop(BoolLit(true), y, t0.no), log1, 1, y, log1);
    RunsTrans(fns, call, log, 3, Ternop(BoolLit(true), y, t0.no), log1, 1, y, log1);
    var c2 := Binop(EqEq, Len(ac), IntLit(0));
    var empty := |ac.elems| == 0;
    var e1 := Tseq(ByteSeq(), []);
    var e2 := Tseq(ByteSeq(), [ac]);
    LenIsZeroRuns(fns, ac, log1);
    RunsInCondition(fns, c2, log1, 2, BoolLit(empty), log1, e1, e2);
    RunsTrans(fns, call, log, 4, y, log1, 2, Ternop(BoolLit(empty), e1, e2), log1);
    TernopOnSettled(fns, BoolLit(empty), e1, e2, log1);
    var branch := if empty then e1 else e2;
    assert Runs(fns, Ternop(BoolLit(empty), e1, e2), log1, 1, branch, log1);
    RunsTrans(fns, call, log, 6, Ternop(BoolLit(empty), e1, e2), log1, 1, branch, log1);
  }

  /** The value of `bytes.SpecSplitInner(s, sep, ac)` with an empty `s`: no parts when
      `ac` is empty, the one part `ac` otherwise. */
  lemma SpecSplitInnerOnEmpty(fns: seq<Func>, s: Expr, sep: Expr, ac: Expr, log: Log, fuel: nat)
    requires GetFn(fns, "bytes.SpecSplitInner") == Ok(SpecSplitInner())
    requires ByteString(s) && |s.elems| == 0 && ByteString(ac) && Settled(sep) && fuel >= 7
    ensures ToValue(ac).Some?
    ensures var call := Call("bytes.SpecSplitInner", [s, sep, ac]);
      Reduce(fns, call, log, fuel) ==
        (Ok(Seq(Some(TSeq(ByteSeq())), if |ac.elems| == 0 then [] else [ToValue(ac).value])), Unfolded(log, call))
  {
    ByteStringSettled(ac);
    StepSettled(fns, ac, log);
    var call := Call("bytes.SpecSplitInner", [s, sep, ac]);
    var branch := if |ac.elems| == 0 then Tseq(ByteSeq(), []) else Tseq(ByteSeq(), [ac]);
    SpecSplitInnerEmptyRuns(fns, s, sep, ac, log);
    assert ToValue(branch).value.elems == if |ac.elems| == 0 then [] else [ToValue(ac).value];
    RunsReduce(fns, call, log, 7, branch, Unfolded(log, call), fuel);
  }

  /** Unfolding `bytes.SpecSplit(b, sep)` gives `bytes.SpecSplitInner(b, sep, {})`. */
  lemma SpecSplitUnfolds(fns: seq<Func>, b: Expr, sep: Expr, log: Log)
    requires GetFn(fns, "bytes.SpecSplit") == Ok(SpecSplit())
    requires ByteString(b) && Settled(sep)
    ensures var call := Call("bytes.SpecSplit", [b, sep]);
      Step(fns, call, log) ==
        Done(Call("bytes.SpecSplitInner", [b, sep, Tseq(TByte(), [])]), true, Unfolded(log, call))
  {
    ByteStringSettled(b);
    var args := [b, sep];
    assert forall k | 0 <= k < |args| :: Settled(args[k]);
    CallUnfoldSettled(fns, "bytes.SpecSplit", args, log);
    SpecSplitBody(b, sep);
  }

  lemma SpecSplitBody(b: Expr, sep: Expr)
    requires ByteString(b)
    ensures SubstParams(SpecSplit().body, SpecSplit().vars, [b, sep], 0) ==
      Call("bytes.SpecSplitInner", [b, sep, Tseq(TByte(), [])])
  {
    var args := [b, sep];
    ByteStringClosed(b, "sep", sep);
    SubstEmpty(TByte(), "b", b);
    SubstEmpty(TByte(), "sep", sep);
    var b1 := Subst(SpecSplit().body, "b", b);
    assert b1.args[0] == b && b1.args[1] == Var("sep") && b1.args[2] == Tseq(TByte(), []);
    var b2 := Subst(b1, "sep", sep);
    assert b2.args[0] == b && b2.args[1] == sep && b2.args[2] == Tseq(TByte(), []);
    assert b2.args == [b, sep, Tseq(TByte(), [])];
    assert SubstParams(SpecSplit().body, SpecSplit().vars, args, 0) == b2;
  }

  /** Splitting an empty byte string gives NO parts: the source's `SpecSplitInner`
      answers `{}` for an empty input and an empty accumulator. */
  lemma SpecSplitOfEmpty(fns: seq<Func>, b: Expr, sep: Expr, log: Log, fuel: nat)
    requires GetFn(fns, "bytes.SpecSplit") == Ok(SpecSplit())
    requires GetFn(fns, "bytes.SpecSplitInner") == Ok(SpecSplitInner())
    requires ByteString(b) && |b.elems| == 0 && Settled(sep) && fuel >= 8
    ensures Reduce(fns, Call("bytes.SpecSplit", [b, sep]), log, fuel).0 == Ok(Seq(Some(TSeq(ByteSeq())), []))
  {
    var call := Call("bytes.SpecSplit", [b, sep]);
    var inner := Call("bytes.SpecSplitInner", [b, sep, Tseq(TByte(), [])]);
    SpecSplitUnfolds(fns, b, sep, log);
    SpecSplitInnerEmptyRuns(fns, b, sep, Tseq(TByte(), []), Unfolded(log, call));
    assert Runs(fns, call, log, 1, inner, Unfolded(log, call));
    RunsTrans(fns, call, log, 1, inner, Unfolded(log, call), 7, Tseq(ByteSeq(), []), Unfolded(Unfolded(log, call), inner));
    RunsReduce(fns, call, log, 8, Tseq(ByteSeq(), []), Unfolded(Unfolded(log, call), inner), fuel);
    assert ToValue(Tseq(ByteSeq(), [])).value.elems == [];
    assert ToValue(Tseq(ByteSeq(), [])) == Some(Seq(Some(TSeq(ByteSeq())), []));
  }

  /** The `Path` struct literal with the given parts and rootedness. */
  function PathLit(parts: Expr, rooted: Expr): Expr {
    StructLit("Path", [("parts", parts), ("rooted", rooted)])
  }

  /** `newPath(rooted)` with a settled `rooted` is, in one step, a `Path` value with no
      parts and that `rooted`. */
  lemma NewPathRuns(fns: seq<Func>, rooted: Expr, log: Log)
    requires GetFn(fns, "newPath") == Ok(NewPath()) && Settled(rooted)
    ensures var call := Call("newPath", [rooted]);
      Runs(fns, call, log, 1, PathLit(Tseq(TAbstract("Segment"), []), rooted), Unfolded(log, call))
    ensures ToValue(PathLit(Tseq(TAbstract("Segment"), []), rooted)).Some?
  {
    var call := Call("newPath", [rooted]);
    var v := PathLit(Tseq(TAbstract("Segment"), []), rooted);
    NewPathStep(fns, rooted, log);
    assert Runs(fns, v, Unfolded(log, call), 0, v, Unfolded(log, call));
    SettledTagged(rooted);
  }

  lemma NewPathStep(fns: seq<Func>, rooted: Expr, log: Log)
    requires GetFn(fns, "newPath") == Ok(NewPath()) && Settled(rooted)
    ensures var call := Call("newPath", [rooted]);
      Step(fns, call, log) == Done(PathLit(Tseq(TAbstract("Segment"), []), rooted), true, Unfolded(log, call))
  {
    CallUnfoldSettled(fns, "newPath", [rooted], log);
    NewPathBody(rooted);
  }

  lemma NewPathBody(rooted: Expr)
    ensures Subst(NewPath().body, "rooted", rooted) == PathLit(Tseq(TAbstract("Segment"), []), rooted)
  {
  }

  lemma ToPathSubst(flat: Expr, rooted: Expr)
    requires flat.SeqLit? && |flat.elems| == 0
    ensures var b := Subst(Subst(ToPathRec().body, "flat", flat), "rooted", rooted);
      b.Ternop? && b.cond == Binop(EqEq, Len(flat), IntLit(0)) && b.yes == Call("newPath", [rooted])
  {
    assert !Mentions(flat, "rooted");
    SubstNotMentioned(flat, "rooted", rooted);
    var body := ToPathRec().body;
    SubstLen(Var("flat"), "flat", flat);
    SubstLen(flat, "rooted", rooted);
    SubstCall1("newPath", Var("rooted"), "flat", flat);
    SubstCall1("newPath", Var("rooted"), "rooted", rooted);
  }

  /** One step unfolds `toPath(flat, rooted)` with no parts in `flat` into its ternary,
      whose condition tests `len(flat) == 0` and whose first branch is `newPath(rooted)`. */
  lemma ToPathUnfolds(fns: seq<Func>, flat: Expr, rooted: Expr, log: Log)
    requires GetFn(fns, "toPath") == Ok(ToPathRec())
    requires flat.SeqLit? && flat.typ.Some? && |flat.elems| == 0 && Settled(rooted)
    ensures var call := Call("toPath", [flat, rooted]);
      var s := Step(fns, call, log);
      s.res.Ok? && s.res.value.0.Ternop? &&
      s.res.value.0.cond == Binop(EqEq, Len(flat), IntLit(0)) &&
      s.res.value.0.yes == Call("newPath", [rooted]) &&
      Runs(fns, call, log, 1, s.res.value.0, Unfolded(log, call))
  {
    var call := Call("toPath", [flat, rooted]);
    var args := [flat, rooted];
    assert forall k | 0 <= k < |args| :: Settled(args[k]);
    CallUnfoldSettled(fns, "toPath", args, log);
    ToPathBody(flat, rooted);
    RunsOne(fns, call, log, SubstParams(ToPathRec().body, ToPathRec().vars, args, 0), Unfolded(log, call));
  }

  lemma ToPathBody(flat: Expr, rooted: Expr)
    requires flat.SeqLit? && |flat.elems| == 0
    ensures var b := SubstParams(ToPathRec().body, ToPathRec().vars, [flat, rooted], 0);
      b.Ternop? && b.cond == Binop(EqEq, Len(flat), IntLit(0)) && b.yes == Call("newPath", [rooted])
  {
    ToPathSubst(flat, rooted);
  }

  /** `toPath(flat, rooted)` with no parts in `flat` selects `newPath(rooted)` in four
      steps. */
  lemma ToPathBranch(fns: seq<Func>, flat: Expr, rooted: Expr, log: Log)
    requires GetFn(fns, "toPath") == Ok(ToPathRec())
    requires flat.SeqLit? && flat.typ.Some? && |flat.elems| == 0 && Settled(rooted)
    ensures var call := Call("toPath", [flat, rooted]);
      Runs(fns, call, log, 4, Call("newPath", [rooted]), Unfolded(log, call))
  {
    var call := Call("toPath", [flat, rooted]);
    ToPathUnfolds(fns, flat, rooted, log);
    var log1 := Unfolded(log, call);
    var t0 := Step(fns, call, log).res.value.0;
    var np := Call("newPath", [rooted]);
    var c := Binop(EqEq, Len(flat), IntLit(0));
    assert t0 == Ternop(c, np, t0.no);
    LenIsZeroRuns(fns, flat, log1);
    RunsInCondition(fns, c, log1, 2, BoolLit(true), log1, np, t0.no);
    RunsTrans(fns, call, log, 1, t0, log1, 2, Ternop(BoolLit(true), np, t0.no), log1);
    TernopOnSettled(fns, BoolLit(true), np, t0.no, log1);
    assert Runs(fns, Ternop(BoolLit(true), np, t0.no), log1, 1, np, log1);
    RunsTrans(fns, call, log, 3, Ternop(BoolLit(true), np, t0.no), log1, 1, np, log1);
  }

  /** `toPath(flat, rooted)` with no parts in `flat` evaluates, in five steps, to
      `newPath(rooted)`: a `Path` with no parts and the given rootedness. */
  lemma ToPathOnEmpty(fns: seq<Func>, flat: Expr, rooted: Expr, log: Log, fuel: nat)
    requires GetFn(fns, "toPath") == Ok(ToPathRec()) && GetFn(fns, "newPath") == Ok(NewPath())
    requires flat.SeqLit? && flat.typ.Some? && |flat.elems| == 0 && Settled(rooted) && fuel >= 5
    ensures ToValue(rooted).Some?
    ensures var call := Call("toPath", [flat, rooted]);
      var r := Reduce(fns, call, log, fuel);
      r.0 == Ok(Struct("Path", [("parts", Seq(Some(TSeq(TAbstract("Segment"))), [])), ("rooted", ToValue(rooted).value)])) &&
      r.1 == Unfolded(Unfolded(log, call), Call("newPath", [rooted]))
  {
    StepSettled(fns, rooted, log);
    var call := Call("toPath", [flat, rooted]);
    var log1 := Unfolded(log, call);
    var np := Call("newPath", [rooted]);
    ToPathBranch(fns, flat, rooted, log);
    var path := PathLit(Tseq(TAbstract("Segment"), []), rooted);
    NewPathRuns(fns, rooted, log1);
    RunsTrans(fns, call, log, 4, np, log1, 1, path, Unfolded(log1, np));
    RunsReduce(fns, call, log, 5, path, Unfolded(log1, np), fuel);
    EmptyPathValue(rooted);
  }

  /** The value of a `Path` literal with no parts. */
  lemma EmptyPathValue(rooted: Expr)
    requires ToValue(rooted).Some?
    ensures ToValue(PathLit(Tseq(TAbstract("Segment"), []), rooted)) ==
      Some(Struct("Path", [("parts", Seq(Some(TSeq(TAbstract("Segment"))), [])), ("rooted", ToValue(rooted).value)]))
  {
    var pv := ToValue(PathLit(Tseq(TAbstract("Segment"), []), rooted)).value;
    assert pv.fields[0] == ("parts", Seq(Some(TSeq(TAbstract("Segment"))), []));
    assert pv.fields[1] == ("rooted", ToValue(rooted).value);
    assert pv == Struct("Path", [("parts", Seq(Some(TSeq(TAbstract("Segment"))), [])), ("rooted", ToValue(rooted).value)]);
  }

  /** A settled `Path` value: a struct literal with settled `parts` (a sequence
      literal) and `rooted`. */
  predicate SettledPath(p: Expr) {
    p.StructLit? && p.tname == "Path" && |p.fields| == 2 &&
    p.fields[0].0 == "parts" && p.fields[1].0 == "rooted" &&
    p.fields[0].1.SeqLit? && Settled(p.fields[0].1) && Settled(p.fields[1].1)
  }

  /** The two field expressions of `pathAppend`'s body with `p` and `s` in place. */
  function AppendParts(p: Expr, s: Expr): Expr {
    Binop(Concat, FieldAccess(p, "parts"), Tseq(TAbstract("Segment"), [s]))
  }

  lemma PathAppendSubst(p: Expr, s: Expr)
    requires !Mentions(p, "s")
    ensures Subst(Subst(PathAppend().body, "p", p), "s", s) == PathLit(AppendParts(p, s), FieldAccess(p, "rooted"))
  {
    SubstNotMentioned(p, "s", s);
    var b1 := Subst(PathAppend().body, "p", p);
    var seg := TAbstract("Segment");
    SubstSingleton(seg, Var("s"), "p", p);
    SubstSingleton(seg, Var("s"), "s", s);
    assert b1.fields[0] == ("parts", Binop(Concat, FieldAccess(p, "parts"), Tseq(seg, [Var("s")])));
    assert b1.fields[1] == ("rooted", FieldAccess(p, "rooted"));
    var b2 := Subst(b1, "s", s);
    assert Subst(FieldAccess(p, "parts"), "s", s) == FieldAccess(p, "parts");
    assert Subst(FieldAccess(p, "rooted"), "s", s) == FieldAccess(p, "rooted");
    assert Subst(b1.fields[0].1, "s", s) == AppendParts(p, s);
    assert b2.fields[0] == ("parts", AppendParts(p, s));
    assert b2.fields[1] == ("rooted", FieldAccess(p, "rooted"));
    assert b2.fields == [("parts", AppendParts(p, s)), ("rooted", FieldAccess(p, "rooted"))];
  }

  /** Reading a field of a settled `Path` gives the literal of that field's value. */
  lemma PathFieldRuns(fns: seq<Func>, p: Expr, k: nat, log: Log)
    requires SettledPath(p) && k < 2
    ensures ToValue(p.fields[k].1).Some?
    ensures Step(fns, FieldAccess(p, p.fields[k].0), log) == Done(Lit(ToValue(p.fields[k].1).value), true, log)
  {
    assert Settled(p);
    FieldOnSettled(fns, p, p.fields[k].0, log);
    var pv := ToValue(p).value;
    assert pv.fields[0].0 == "parts" && pv.fields[1].0 == "rooted";
    assert Lookup(pv.fields, p.fields[k].0) == Some(pv.fields[k].1) by {
      if k == 1 { assert pv.fields[1..][0] == pv.fields[1]; }
    }
  }

  /** The first step of the unfolded body reads `p.parts`. */
  lemma PathAppendStep1(fns: seq<Func>, p: Expr, s: Expr, log: Log)
    requires SettledPath(p) && Settled(s)
    ensures ToValue(p.fields[0].1).Some?
    ensures var pv := ToValue(p.fields[0].1).value;
      var parts := Binop(Concat, Lit(pv), Tseq(TAbstract("Segment"), [s]));
      Runs(fns, PathLit(AppendParts(p, s), FieldAccess(p, "rooted")), log, 1,
           PathLit(parts, FieldAccess(p, "rooted")), log)
  {
    PathFieldRuns(fns, p, 0, log);
    var pv := ToValue(p.fields[0].1).value;
    var e := PathLit(AppendParts(p, s), FieldAccess(p, "rooted"));
    var parts := Binop(Concat, Lit(pv), Tseq(TAbstract("Segment"), [s]));
    assert Step(fns, AppendParts(p, s), log) == Done(parts, true, log);
    assert e.fields[0 := ("parts", parts)] == PathLit(parts, FieldAccess(p, "rooted")).fields;
    LitRoundTrip(pv);
  }

  /** The second step concatenates. */
  lemma PathAppendStep2(fns: seq<Func>, p: Expr, s: Expr, log: Log)
    requires SettledPath(p) && Settled(s)
    ensures ToValue(p.fields[0].1).Some? && ToValue(s).Some? && ToValue(p.fields[0].1).value.Seq?
    ensures var pv := ToValue(p.fields[0].1).value;
      var parts := Binop(Concat, Lit(pv), Tseq(TAbstract("Segment"), [s]));
      var joined := Lit(Seq(None, pv.elems + [ToValue(s).value]));
      Runs(fns, PathLit(parts, FieldAccess(p, "rooted")), log, 1, PathLit(joined, FieldAccess(p, "rooted")), log)
  {
    var P := p.fields[0].1;
    SettledTagged(P);
    var pv := ToValue(P).value;
    LitSettled(pv);
    LitRoundTrip(pv);
    var single := Tseq(TAbstract("Segment"), [s]);
    assert Settled(single);
    StepSettled(fns, single, log);
    StepSettled(fns, s, log);
    var sv := ToValue(s).value;
    assert ToValue(single).value.elems == [sv];
    assert ToValue(single) == Some(Seq(single.typ, [sv]));
    BinopOnSettled(fns, Concat, Lit(pv), single, log);
    var joined := Lit(Seq(None, pv.elems + [sv]));
    var parts := Binop(Concat, Lit(pv), single);
    assert Step(fns, parts, log) == Done(joined, true, log);
    var e := PathLit(parts, FieldAccess(p, "rooted"));
    assert e.fields[0 := ("parts", joined)] == PathLit(joined, FieldAccess(p, "rooted")).fields;
  }

  /** The third step gives the concatenation its inferred tag, reports no progress for
      it and goes on to read `p.rooted`. */
  lemma PathAppendStep3(fns: seq<Func>, p: Expr, joined: Val, log: Log)
    requires SettledPath(p) && joined.Seq? && forall k | 0 <= k < |joined.elems| :: Tagged(joined.elems[k])
    ensures ToValue(p.fields[1].1).Some?
    ensures TypeOf(fns, Lit(joined)).Ok?
    ensures var parts := SeqLit(TypeOf(fns, Lit(joined)).value, Lit(joined).elems);
      var rooted := Lit(ToValue(p.fields[1].1).value);
      Runs(fns, PathLit(Lit(joined), FieldAccess(p, "rooted")), log, 1, PathLit(parts, rooted), log) &&
      ToValue(PathLit(parts, rooted)) ==
        Some(Struct("Path", [("parts", Seq(parts.typ, joined.elems)), ("rooted", ToValue(p.fields[1].1).value)]))
  {
    var j := Lit(joined);
    LitRoundTrip(joined);
    TypeOfValueOk(fns, j);
    var t := TypeOf(fns, j).value;
    forall k | 0 <= k < |j.elems| ensures Settled(j.elems[k]) {
      LitSettled(joined.elems[k]);
    }
    SeqElemsOfSettled(fns, j, t, 0, log);
    var parts := SeqLit(t, j.elems);
    assert Step(fns, j, log) == Done(parts, false, log);
    PathFieldRuns(fns, p, 1, log);
    var rv := ToValue(p.fields[1].1).value;
    var rooted := Lit(rv);
    LitRoundTrip(rv);
    var e := PathLit(j, FieldAccess(p, "rooted"));
    assert e.fields[0 := ("parts", parts)][1 := ("rooted", rooted)] == PathLit(parts, rooted).fields;
    assert ToValue(parts).Some?;
    assert Step(fns, e, log) == StructFields(fns, e, 1, e.fields[0 := ("parts", parts)], false, log);
    assert Step(fns, e, log) == Done(PathLit(parts, rooted), true, log);
    var v := ToValue(PathLit(parts, rooted)).value;
    assert ToValue(parts).value.elems == joined.elems;
    assert v.fields == [("parts", Seq(t, joined.elems)), ("rooted", rv)];
  }

  /** Unfolding `pathAppend(p, s)`. */
  lemma PathAppendUnfolds(fns: seq<Func>, p: Expr, s: Expr, log: Log)
    requires GetFn(fns, "pathAppend") == Ok(PathAppend())
    requires SettledPath(p) && Settled(s) && !Mentions(p, "s")
    ensures var call := Call("pathAppend", [p, s]);
      Runs(fns, call, log, 1, PathLit(AppendParts(p, s), FieldAccess(p, "rooted")), Unfolded(log, call))
    ensures TypeOf(fns, Call("pathAppend", [p, s])) == Ok(Some(TAbstract("Path")))
  {
    assert Settled(p);
    var args := [p, s];
    assert forall k | 0 <= k < |args| :: Settled(args[k]);
    CallUnfoldSettled(fns, "pathAppend", args, log);
    PathAppendSubst(p, s);
    var i :| 0 <= i < |fns| && fns[i] == PathAppend() && forall j | 0 <= j < i :: fns[j].name != "pathAppend";
    CallType(fns, "pathAppend", args);
  }

  /** The three steps of the unfolded body of `pathAppend`. */
  lemma PathAppendBodyRuns(fns: seq<Func>, p: Expr, s: Expr, log: Log)
    requires SettledPath(p) && Settled(s)
    ensures ToValue(p.fields[0].1).Some? && ToValue(p.fields[0].1).value.Seq?
    ensures ToValue(p.fields[1].1).Some? && ToValue(s).Some?
    ensures var joined := Seq(None, ToValue(p.fields[0].1).value.elems + [ToValue(s).value]);
      TypeOf(fns, Lit(joined)).Ok? &&
      var parts := SeqLit(TypeOf(fns, Lit(joined)).value, Lit(joined).elems);
      var e3 := PathLit(parts, Lit(ToValue(p.fields[1].1).value));
      Runs(fns, PathLit(AppendParts(p, s), FieldAccess(p, "rooted")), log, 3, e3, log) &&
      ToValue(e3) == Some(Struct("Path", [("parts", Seq(parts.typ, joined.elems)), ("rooted", ToValue(p.fields[1].1).value)]))
  {
    var e0 := PathLit(AppendParts(p, s), FieldAccess(p, "rooted"));
    PathAppendStep1(fns, p, s, log);
    var P := p.fields[0].1;
    SettledTagged(P);
    SettledTagged(s);
    var pv := ToValue(P).value;
    var sv := ToValue(s).value;
    var e1 := PathLit(Binop(Concat, Lit(pv), Tseq(TAbstract("Segment"), [s])), FieldAccess(p, "rooted"));
    PathAppendStep2(fns, p, s, log);
    var joined := Seq(None, pv.elems + [sv]);
    var e2 := PathLit(Lit(joined), FieldAccess(p, "rooted"));
    assert ToValue(e1.fields[1].1).None?;
    RunsTrans(fns, e0, log, 1, e1, log, 1, e2, log);
    PathAppendStep3(fns, p, joined, log);
    var parts := SeqLit(TypeOf(fns, Lit(joined)).value, Lit(joined).elems);
    var e3 := PathLit(parts, Lit(ToValue(p.fields[1].1).value));
    assert ToValue(e2.fields[1].1).None?;
    RunsTrans(fns, e0, log, 2, e2, log, 1, e3, log);
  }

  /** `pathAppend(p, s)` on a settled `Path` and a settled segment evaluates, in four
      steps, to a `Path` whose parts are `p`'s followed by `s` and whose rootedness is
      `p`'s; its declared type is `Path`. */
  lemma PathAppendEvaluates(fns: seq<Func>, p: Expr, s: Expr, log: Log, fuel: nat)
    requires GetFn(fns, "pathAppend") == Ok(PathAppend())
    requires SettledPath(p) && Settled(s) && !Mentions(p, "s") && fuel >= 4
    ensures ToValue(p.fields[0].1).Some? && ToValue(p.fields[0].1).value.Seq?
    ensures ToValue(p.fields[1].1).Some? && ToValue(s).Some?
    ensures var call := Call("pathAppend", [p, s]);
      var r := Reduce(fns, call, log, fuel);
      r.1 == Unfolded(log, call) && r.0.Ok? && r.0.value.Struct? && r.0.value.tname == "Path" &&
      |r.0.value.fields| == 2 &&
      r.0.value.fields[0].0 == "parts" && r.0.value.fields[0].1.Seq? &&
      r.0.value.fields[0].1.elems == ToValue(p.fields[0].1).value.elems + [ToValue(s).value] &&
      r.0.value.fields[1] == ("rooted", ToValue(p.fields[1].1).value)
    ensures TypeOf(fns, Call("pathAppend", [p, s])) == Ok(Some(TAbstract("Path")))
  {
    var call := Call("pathAppend", [p, s]);
    var log1 := Unfolded(log, call);
    PathAppendUnfolds(fns, p, s, log);
    PathAppendBodyRuns(fns, p, s, log1);
    var e0 := PathLit(AppendParts(p, s), FieldAccess(p, "rooted"));
    var joined := Seq(None, ToValue(p.fields[0].1).value.elems + [ToValue(s).value]);
    var parts := SeqLit(TypeOf(fns, Lit(joined)).value, Lit(joined).elems);
    var e3 := PathLit(parts, Lit(ToValue(p.fields[1].1).value));
    assert ToValue(e0.fields[1].1).None?;
    RunsTrans(fns, call, log, 1, e0, log1, 3, e3, log1);
    RunsReduce(fns, call, log, 4, e3, log1, fuel);
  }
}
