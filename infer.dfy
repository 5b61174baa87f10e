/** Best-effort type inference (the `Type` methods of type.go). It never rejects a
    term: it answers a type or unknown (`None`), and fails only where `expectSeq`
    does, on an index into something whose type is neither abstract nor a sequence. */
module Infer {
  import opened Base
  import opened Types
  import opened Syntax
  import opened Registry

  /** `binopMatch`: the primitive result kind of every opcode other than `Concat`. */
  function BinopMatch(op: BinopKind): (k: PrimKind)
    requires op != Concat
    ensures k == BoolKind <==> op in {EqEq, Gt, Lt, And}
    ensures k == IntKind <==> op in {Add, Mul, Sub, Div}
  {
    match op
    case EqEq => BoolKind
    case Add => IntKind
    case Mul => IntKind
    case Sub => IntKind
    case Div => IntKind
    case Gt => BoolKind
    case Lt => BoolKind
    case And => BoolKind
  }

  /** `Type(c)` of every node kind; only the registry of the context is consulted. */
  function TypeOf(fns: seq<Func>, e: Expr): (r: Result<Option<Type>>)
    ensures r.Fail? ==> r.failure == NotSequenceType
    ensures e.SeqLit? && e.typ.None? && r.Ok? && r.value.Some? ==> r.value.value.TSeq?
    decreases e, 1
  {
    match e
    case Binop(op, l, _) => if op == Concat then TypeOf(fns, l) else Ok(Some(TPrim(BinopMatch(op))))
    case SeqIndex(s, _) =>
      (match TypeOf(fns, s)
       case Fail(f) => Fail(f)
       case Ok(t) =>
         if IsAbstract(t) then Ok(None)
         else
           match ExpectSeq(t)
           case Ok(ts) => Ok(Some(ts.elem))
           case Fail(f) => Fail(f))
    case SeqSlice(s, _, _) => TypeOf(fns, s)
    case BoolLit(_) => Ok(Some(TBool()))
    case IntLit(_) => Ok(Some(TInt()))
    case Ternop(_, yes, _) => TypeOf(fns, yes)
    case Var(name) => Ok(Some(TAbstract(name)))
    case StructLit(tname, _) => Ok(Some(TAbstract(tname)))
    case Call(name, _) =>
      (match TryGetFn(fns, name)
       case None => Ok(None)
       case Some(f) => Ok(f.rettyp))
    case SeqLit(typ, _) => if typ.Some? then Ok(typ) else FirstElemType(fns, e, 0)
    case FieldAccess(_, _) => Ok(Some(TAbstract("unknown")))
    // `SymLit.Type` is not among the sources; a symbolic literal's type is taken as unknown.
    case SymLit(_) => Ok(None)
  }

  /** The loop of `SeqLit.Type` from element `i` on: the sequence type of the first
      element whose type is known, or unknown. */
  function FirstElemType(fns: seq<Func>, e: Expr, i: nat): (r: Result<Option<Type>>)
    requires e.SeqLit? && i <= |e.elems|
    ensures r.Fail? ==> r.failure == NotSequenceType
    ensures r.Ok? && r.value.Some? ==> r.value.value.TSeq?
    decreases e, 0, |e.elems| - i
  {
    if i == |e.elems| then Ok(None)
    else
      match TypeOf(fns, e.elems[i])
      case Fail(f) => Fail(f)
      case Ok(None) => FirstElemType(fns, e, i + 1)
      case Ok(Some(t)) => Ok(Some(TSeq(t)))
  }

  /** Element `j` is the first element from `i` on whose type is known, and it is `t`. */
  predicate FirstKnownAt(fns: seq<Func>, e: Expr, i: nat, j: nat, t: Type)
    requires e.SeqLit? && i <= j < |e.elems|
  {
    TypeOf(fns, e.elems[j]) == Ok(Some(t)) &&
    forall k | i <= k < j :: TypeOf(fns, e.elems[k]) == Ok(None)
  }

  /** An untagged sequence literal has the sequence type of its first element of known
      type; it is unknown when no element has a known type. */
  lemma {:induction false} FirstElemTypeIsFirstKnown(fns: seq<Func>, e: Expr, i: nat)
    requires e.SeqLit? && i <= |e.elems|
    requires forall k | i <= k < |e.elems| :: TypeOf(fns, e.elems[k]).Ok?
    ensures FirstElemType(fns, e, i).Ok?
    ensures FirstElemType(fns, e, i) == Ok(None) <==>
      forall k | i <= k < |e.elems| :: TypeOf(fns, e.elems[k]) == Ok(None)
    ensures forall t: Type :: FirstElemType(fns, e, i) == Ok(Some(TSeq(t))) <==>
      exists j | i <= j < |e.elems| :: FirstKnownAt(fns, e, i, j, t)
    decreases |e.elems| - i
  {
    if i < |e.elems| {
      FirstElemTypeIsFirstKnown(fns, e, i + 1);
      if TypeOf(fns, e.elems[i]) == Ok(None) {
        forall t: Type
          ensures FirstElemType(fns, e, i) == Ok(Some(TSeq(t))) <==>
            exists j | i <= j < |e.elems| :: FirstKnownAt(fns, e, i, j, t)
        {
          if FirstElemType(fns, e, i) == Ok(Some(TSeq(t))) {
            var j :| i + 1 <= j < |e.elems| && FirstKnownAt(fns, e, i + 1, j, t);
            assert FirstKnownAt(fns, e, i, j, t);
          } else if j :| i <= j < |e.elems| && FirstKnownAt(fns, e, i, j, t) {
            assert j != i;
            assert FirstKnownAt(fns, e, i + 1, j, t);
          }
        }
      } else {
        forall t: Type
          ensures FirstElemType(fns, e, i) == Ok(Some(TSeq(t))) <==>
            exists j | i <= j < |e.elems| :: FirstKnownAt(fns, e, i, j, t)
        {
          if FirstElemType(fns, e, i) == Ok(Some(TSeq(t))) {
            assert FirstKnownAt(fns, e, i, i, t);
          }
        }
      }
    }
  }

  /** Type inference never fails on a value form: values contain no index node. */
  lemma {:induction false} TypeOfValueOk(fns: seq<Func>, e: Expr)
    requires ToValue(e).Some?
    ensures TypeOf(fns, e).Ok?
    decreases e, 1
  {
    match e
    case SeqLit(typ, elems) =>
      if typ.None? {
        forall k | 0 <= k < |elems| ensures TypeOf(fns, elems[k]).Ok? {
          TypeOfValueOk(fns, elems[k]);
        }
        FirstElemTypeIsFirstKnown(fns, e, 0);
      }
    case _ =>
  }

  /** The inferred type of a literal: `int` and `bool` for the scalars, the tag of a
      tagged sequence, the type name of a struct. This restates the matching arms of
      `TypeOf` one node kind at a time; Dafny reads it off the definition. */
  lemma LitType(fns: seq<Func>, v: Val)
    ensures v.Int? ==> TypeOf(fns, Lit(v)) == Ok(Some(TInt()))
    ensures v.Bool? ==> TypeOf(fns, Lit(v)) == Ok(Some(TBool()))
    ensures v.Seq? && v.typ.Some? ==> TypeOf(fns, Lit(v)) == Ok(v.typ)
    ensures v.Struct? ==> TypeOf(fns, Lit(v)) == Ok(Some(TAbstract(v.tname)))
  {
  }

  /** Indexing: unknown for an abstract base, the element type for a sequence base,
      and a failure for any other base type, including an unknown one. A per-arm
      restatement of `TypeOf`, read off the definition. */
  lemma IndexType(fns: seq<Func>, s: Expr, i: Expr)
    ensures TypeOf(fns, s).Ok? ==>
      var t := TypeOf(fns, s).value;
      (t.Some? && t.value.TAbstract? ==> TypeOf(fns, SeqIndex(s, i)) == Ok(None)) &&
      (t.Some? && t.value.TSeq? ==> TypeOf(fns, SeqIndex(s, i)) == Ok(Some(t.value.elem))) &&
      ((t.None? || t.value.TPrim?) ==> TypeOf(fns, SeqIndex(s, i)) == Fail(NotSequenceType))
    ensures TypeOf(fns, s).Fail? ==> TypeOf(fns, SeqIndex(s, i)) == TypeOf(fns, s)
  {
  }

  /** A call has the declared return type of the registered function, and is unknown
      when no function of that name is registered. A per-arm restatement of `TypeOf`
      in terms of the registry, read off the definitions of `TypeOf` and `GetFn`. */
  lemma CallType(fns: seq<Func>, name: string, args: seq<Expr>)
    ensures (forall i | 0 <= i < |fns| :: fns[i].name != name) ==> TypeOf(fns, Call(name, args)) == Ok(None)
    ensures forall i | 0 <= i < |fns| ::
      fns[i].name == name && (forall j | 0 <= j < i :: fns[j].name != name) ==>
      TypeOf(fns, Call(name, args)) == Ok(fns[i].rettyp)
  {
  }

  /** `seq(args...)`: an untagged sequence literal whose tag is inferred against an
      empty registry (`EmptyCtx()`). */
  function SeqOf(args: seq<Expr>): (r: Result<Expr>)
    ensures r.Ok? ==> r.value.SeqLit? && r.value.elems == args
    ensures r.Ok? && r.value.typ.Some? ==> r.value.typ.value.TSeq?
    ensures r.Fail? ==> r.failure == NotSequenceType
  {
    match TypeOf([], SeqLit(None, args))
    case Fail(f) => Fail(f)
    case Ok(t) => Ok(SeqLit(t, args))
  }

  /** `seq(...)` of values never fails, and its result is again a value: the sequence
      of those values under the inferred tag. */
  lemma SeqOfValues(args: seq<Expr>)
    requires forall k | 0 <= k < |args| :: ToValue(args[k]).Some?
    ensures SeqOf(args).Ok?
    ensures ToValue(SeqOf(args).value).Some?
    ensures forall k | 0 <= k < |args| :: ToValue(SeqOf(args).value).value.elems[k] == ToValue(args[k]).value
  {
    forall k | 0 <= k < |args| ensures TypeOf([], args[k]).Ok? {
      TypeOfValueOk([], args[k]);
    }
    FirstElemTypeIsFirstKnown([], SeqLit(None, args), 0);
  }
}
