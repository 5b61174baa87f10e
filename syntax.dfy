/** Expressions, values and function definitions (expr.go, val.go), with the three
    pure operations every node supports: conversion to a value (`ToValue`), conversion
    of a value back to its literal (`lit`) and parameter substitution (`Subst`). */
module Syntax {
  import opened Base
  import opened Types

  /** The `binop` opcodes. `Add` .. `EqEq` are the enum of main.go:15-22; `Gt`, `Lt`
      and `And` are used by expr.go and type.go but declared nowhere in the sources
      at hand, so they are an assumption of this model. */
  datatype BinopKind = Add | Mul | Concat | Sub | Div | EqEq | Gt | Lt | And

  /** Expression nodes. Go's nil `Expr`/`Type` fields become `Option`; a struct
      literal's Go map becomes an association list whose order fixes the otherwise
      unspecified iteration order. */
  datatype Expr =
    | Binop(op: BinopKind, l: Expr, r: Expr)
    | Ternop(cond: Expr, yes: Expr, no: Expr)
    | Call(name: string, args: seq<Expr>)
    | SeqLit(typ: Option<Type>, elems: seq<Expr>)
    | StructLit(tname: string, fields: seq<(string, Expr)>)
    | SeqSlice(base: Expr, low: Option<Expr>, high: Option<Expr>)
    | SeqIndex(base: Expr, index: Expr)
    | FieldAccess(lhs: Expr, field: string)
    | IntLit(n: int)
    | BoolLit(b: bool)
    | Var(name: string)
    | SymLit(sym: Expr)   // `SymLit{SymVal{sym}}`: the literal form of a symbolic value

  /** Runtime values. `SymVal` stands for an expression that could not be reduced
      further, such as a free variable. */
  datatype Val =
    | Int(n: int)
    | Bool(b: bool)
    | Seq(typ: Option<Type>, elems: seq<Val>)
    | Struct(tname: string, fields: seq<(string, Val)>)
    | SymVal(sym: Expr)

  /** A registered specification function: name, parameter names, body and an
      optional declared return type. */
  datatype Func = Func(name: string, body: Expr, vars: seq<string>, rettyp: Option<Type>)

  /** `tseq(t, args...)`: a sequence literal tagged with element type `t`. */
  function Tseq(t: Type, args: seq<Expr>): Expr {
    SeqLit(Some(TSeq(t)), args)
  }

  /** The value forms: atoms, and sequence or struct literals of value forms. This is
      the reference definition that `ToValue` is checked against. */
  predicate ValueForm(e: Expr)
    decreases e, 1
  {
    match e
    case IntLit(_) => true
    case BoolLit(_) => true
    case Var(_) => true
    case SymLit(_) => true
    case SeqLit(_, elems) => forall k | 0 <= k < |elems| :: ValueForm(elems[k])
    case StructLit(_, fields) => FieldsValueForm(e, 0)
    case _ => false
  }

  predicate FieldsValueForm(e: Expr, i: nat)
    requires e.StructLit? && i <= |e.fields|
    decreases e, 0, |e.fields| - i
  {
    i == |e.fields| || (ValueForm(e.fields[i].1) && FieldsValueForm(e, i + 1))
  }

  /** `ToValue` of every node kind. Atoms always convert (`Var(n)` to the symbolic
      value wrapping itself); sequence and struct literals convert exactly when every
      child converts, keeping their type tag or type name, their order and their field
      names; every other node kind never converts. */
  function ToValue(e: Expr): (r: Option<Val>)
    decreases e, 1
    ensures e.Var? ==> r == Some(SymVal(e))
    ensures e.SeqLit? ==> (r.Some? <==> forall k | 0 <= k < |e.elems| :: ToValue(e.elems[k]).Some?)
    ensures e.SeqLit? && r.Some? ==>
      r.value.Seq? && r.value.typ == e.typ && |r.value.elems| == |e.elems| &&
      forall k | 0 <= k < |e.elems| :: ToValue(e.elems[k]) == Some(r.value.elems[k])
    ensures e.StructLit? ==> (r.Some? <==> forall k | 0 <= k < |e.fields| :: ToValue(e.fields[k].1).Some?)
    ensures e.StructLit? && r.Some? ==>
      r.value.Struct? && r.value.tname == e.tname && |r.value.fields| == |e.fields| &&
      forall k | 0 <= k < |e.fields| ::
        r.value.fields[k].0 == e.fields[k].0 && ToValue(e.fields[k].1) == Some(r.value.fields[k].1)
    ensures (e.Binop? || e.Ternop? || e.Call? || e.SeqSlice? || e.SeqIndex? || e.FieldAccess?) ==> r.None?
  {
    match e
    case IntLit(n) => Some(Int(n))
    case BoolLit(b) => Some(Bool(b))
    case Var(_) => Some(SymVal(e))
    case SymLit(sym) => Some(SymVal(sym))
    case SeqLit(typ, elems) =>
      if forall k | 0 <= k < |elems| :: ToValue(elems[k]).Some? then
        Some(Seq(typ, seq(|elems|, k requires 0 <= k < |elems| => ToValue(elems[k]).value)))
      else None
    case StructLit(tname, fields) =>
      if forall k | 0 <= k < |fields| :: ToValue(fields[k].1).Some? then
        Some(Struct(tname, seq(|fields|, k requires 0 <= k < |fields| => (fields[k].0, ToValue(fields[k].1).value))))
      else None
    case _ => None
  }

  /** `ToValue` succeeds exactly on the value forms. */
  lemma {:induction false} ToValueIffValueForm(e: Expr)
    ensures ToValue(e).Some? <==> ValueForm(e)
    decreases e, 1
  {
    match e
    case SeqLit(_, elems) =>
      forall k | 0 <= k < |elems| ensures ToValue(elems[k]).Some? <==> ValueForm(elems[k]) {
        ToValueIffValueForm(elems[k]);
      }
    case StructLit(_, fields) =>
      FieldsToValueIffValueForm(e, 0);
    case _ =>
  }

  lemma {:induction false} FieldsToValueIffValueForm(e: Expr, i: nat)
    requires e.StructLit? && i <= |e.fields|
    ensures FieldsValueForm(e, i) <==> forall k | i <= k < |e.fields| :: ToValue(e.fields[k].1).Some?
    decreases e, 0, |e.fields| - i
  {
    if i < |e.fields| {
      ToValueIffValueForm(e.fields[i].1);
      FieldsToValueIffValueForm(e, i + 1);
    }
  }

  /** `lit`: the literal expression of a value. */
  function Lit(v: Val): (r: Expr)
    decreases v
    ensures v.Seq? ==> r.SeqLit? && r.typ == v.typ && |r.elems| == |v.elems|
    ensures v.Struct? ==>
      r.StructLit? && r.tname == v.tname && |r.fields| == |v.fields| &&
      forall k | 0 <= k < |v.fields| :: r.fields[k].0 == v.fields[k].0
  {
    match v
    case Int(n) => IntLit(n)
    case Bool(b) => BoolLit(b)
    case Seq(typ, elems) => SeqLit(typ, seq(|elems|, k requires 0 <= k < |elems| => Lit(elems[k])))
    case Struct(tname, fields) =>
      StructLit(tname, seq(|fields|, k requires 0 <= k < |fields| => (fields[k].0, Lit(fields[k].1))))
    case SymVal(sym) => SymLit(sym)
  }

  /** Round trip: the literal of any value converts back to that very value. */
  lemma {:induction false} LitRoundTrip(v: Val)
    ensures ToValue(Lit(v)) == Some(v)
    decreases v
  {
    match v
    case Seq(typ, elems) =>
      forall k | 0 <= k < |elems| ensures ToValue(Lit(elems[k])) == Some(elems[k]) {
        LitRoundTrip(elems[k]);
      }
      assert ToValue(Lit(v)).value.elems == elems;
    case Struct(tname, fields) =>
      forall k | 0 <= k < |fields| ensures ToValue(Lit(fields[k].1)) == Some(fields[k].1) {
        LitRoundTrip(fields[k].1);
      }
      assert ToValue(Lit(v)).value.fields == fields;
    case _ =>
  }

  /** Whether `Var(x)` occurs in `e` where substitution can reach it (symbolic
      literals are opaque to substitution). */
  predicate Mentions(e: Expr, x: string)
    decreases e, 1
  {
    match e
    case Binop(_, l, r) => Mentions(l, x) || Mentions(r, x)
    case Ternop(c, y, n) => Mentions(c, x) || Mentions(y, x) || Mentions(n, x)
    case Call(_, args) => exists k | 0 <= k < |args| :: Mentions(args[k], x)
    case SeqLit(_, elems) => exists k | 0 <= k < |elems| :: Mentions(elems[k], x)
    case StructLit(_, fields) => FieldsMention(e, 0, x)
    case SeqSlice(s, lo, hi) =>
      Mentions(s, x) || (lo.Some? && Mentions(lo.value, x)) || (hi.Some? && Mentions(hi.value, x))
    case SeqIndex(s, i) => Mentions(s, x) || Mentions(i, x)
    case FieldAccess(lhs, _) => Mentions(lhs, x)
    case Var(name) => name == x
    case _ => false
  }

  predicate FieldsMention(e: Expr, i: nat, x: string)
    requires e.StructLit? && i <= |e.fields|
    decreases e, 0, |e.fields| - i
  {
    i < |e.fields| && (Mentions(e.fields[i].1, x) || FieldsMention(e, i + 1, x))
  }

  /** `Subst(x, to)`: replaces every `Var(x)` by `to`. A `Var` is replaced exactly when
      its name is `x`; literals and symbolic literals are returned untouched; every
      other node is rebuilt with the same kind, opcode, name, type tag and field names. */
  function Subst(e: Expr, x: string, to: Expr): (r: Expr)
    decreases e, 1
    ensures e.Var? ==> (r == if e.name == x then to else e)
    ensures (e.IntLit? || e.BoolLit? || e.SymLit?) ==> r == e
    ensures e.Binop? ==> r.Binop? && r.op == e.op
    ensures e.Ternop? ==> r.Ternop?
    ensures e.SeqIndex? ==> r.SeqIndex?
    ensures e.Call? ==> r.Call? && r.name == e.name && |r.args| == |e.args|
    ensures e.SeqLit? ==> r.SeqLit? && r.typ == e.typ && |r.elems| == |e.elems|
    ensures e.StructLit? ==>
      r.StructLit? && r.tname == e.tname && |r.fields| == |e.fields| &&
      forall k | 0 <= k < |e.fields| :: r.fields[k].0 == e.fields[k].0
    ensures e.SeqSlice? ==> r.SeqSlice? && r.low.Some? == e.low.Some? && r.high.Some? == e.high.Some?
    ensures e.FieldAccess? ==> r.FieldAccess? && r.field == e.field
  {
    match e
    case Binop(op, l, r) => Binop(op, Subst(l, x, to), Subst(r, x, to))
    case Ternop(c, y, n) => Ternop(Subst(c, x, to), Subst(y, x, to), Subst(n, x, to))
    case Call(name, args) => Call(name, seq(|args|, k requires 0 <= k < |args| => Subst(args[k], x, to)))
    case SeqLit(typ, elems) => SeqLit(typ, seq(|elems|, k requires 0 <= k < |elems| => Subst(elems[k], x, to)))
    case StructLit(tname, fields) =>
      StructLit(tname, seq(|fields|, k requires 0 <= k < |fields| => (fields[k].0, Subst(fields[k].1, x, to))))
    case SeqSlice(s, lo, hi) =>
      SeqSlice(Subst(s, x, to),
               if lo.Some? then Some(Subst(lo.value, x, to)) else None,
               if hi.Some? then Some(Subst(hi.value, x, to)) else None)
    case SeqIndex(s, i) => SeqIndex(Subst(s, x, to), Subst(i, x, to))
    case FieldAccess(lhs, field) => FieldAccess(Subst(lhs, x, to), field)
    case IntLit(_) => e
    case BoolLit(_) => e
    case SymLit(_) => e
    case Var(name) => if name == x then to else e
  }

  /** Substituting a name that does not occur is the identity. */
  lemma {:induction false} SubstNotMentioned(e: Expr, x: string, to: Expr)
    requires !Mentions(e, x)
    ensures Subst(e, x, to) == e
    decreases e, 1
  {
    match e
    case Binop(_, l, r) => SubstNotMentioned(l, x, to); SubstNotMentioned(r, x, to);
    case Ternop(c, y, n) => SubstNotMentioned(c, x, to); SubstNotMentioned(y, x, to); SubstNotMentioned(n, x, to);
    case Call(_, args) =>
      forall k | 0 <= k < |args| ensures Subst(args[k], x, to) == args[k] {
        SubstNotMentioned(args[k], x, to);
      }
      assert Subst(e, x, to).args == args;
    case SeqLit(_, elems) =>
      forall k | 0 <= k < |elems| ensures Subst(elems[k], x, to) == elems[k] {
        SubstNotMentioned(elems[k], x, to);
      }
      assert Subst(e, x, to).elems == elems;
    case StructLit(_, fields) =>
      forall k | 0 <= k < |fields| ensures Subst(fields[k].1, x, to) == fields[k].1 {
        FieldsMentionAt(e, 0, k, x);
        SubstNotMentioned(fields[k].1, x, to);
      }
      assert Subst(e, x, to).fields == fields;
    case SeqSlice(s, lo, hi) =>
      SubstNotMentioned(s, x, to);
      if lo.Some? { SubstNotMentioned(lo.value, x, to); }
      if hi.Some? { SubstNotMentioned(hi.value, x, to); }
    case SeqIndex(s, i) => SubstNotMentioned(s, x, to); SubstNotMentioned(i, x, to);
    case FieldAccess(lhs, _) => SubstNotMentioned(lhs, x, to);
    case _ =>
  }

  /** A field at or after position `i` that mentions `x` makes the fields mention `x`. */
  lemma {:induction false} FieldsMentionAt(e: Expr, i: nat, k: nat, x: string)
    requires e.StructLit? && i <= k < |e.fields|
    ensures Mentions(e.fields[k].1, x) ==> FieldsMention(e, i, x)
    decreases k - i
  {
    if i < k {
      FieldsMentionAt(e, i + 1, k, x);
    }
  }

  /** Substitution eliminates the name, provided the replacement does not mention it. */
  lemma {:induction false} SubstEliminates(e: Expr, x: string, to: Expr)
    requires !Mentions(to, x)
    ensures !Mentions(Subst(e, x, to), x)
    decreases e, 1
  {
    match e
    case Binop(op, l, r) =>
      SubstEliminates(l, x, to); SubstEliminates(r, x, to);
      assert Subst(e, x, to) == Binop(op, Subst(l, x, to), Subst(r, x, to));
    case Ternop(c, y, n) =>
      SubstEliminates(c, x, to); SubstEliminates(y, x, to); SubstEliminates(n, x, to);
      assert Subst(e, x, to) == Ternop(Subst(c, x, to), Subst(y, x, to), Subst(n, x, to));
    case Call(_, _) => SubstEliminatesChildren(e, x, to);
    case SeqLit(_, _) => SubstEliminatesChildren(e, x, to);
    case StructLit(_, _) => SubstEliminatesChildren(e, x, to);
    case SeqSlice(_, _, _) => SubstEliminatesSlice(e, x, to);
    case SeqIndex(s, i) =>
      SubstEliminates(s, x, to); SubstEliminates(i, x, to);
      assert Subst(e, x, to) == SeqIndex(Subst(s, x, to), Subst(i, x, to));
    case FieldAccess(lhs, field) =>
      SubstEliminates(lhs, x, to);
      assert Subst(e, x, to) == FieldAccess(Subst(lhs, x, to), field);
    case _ =>
  }

  /** The slice case of `SubstEliminates`. */
  lemma {:induction false} SubstEliminatesSlice(e: Expr, x: string, to: Expr)
    requires e.SeqSlice? && !Mentions(to, x)
    ensures !Mentions(Subst(e, x, to), x)
    decreases e, 0
  {
    var r := Subst(e, x, to);
    SubstEliminates(e.base, x, to);
    assert r.base == Subst(e.base, x, to);
    if e.low.Some? {
      SubstEliminates(e.low.value, x, to);
      assert r.low.value == Subst(e.low.value, x, to);
    }
    if e.high.Some? {
      SubstEliminates(e.high.value, x, to);
      assert r.high.value == Subst(e.high.value, x, to);
    }
    SliceNotMentioned(r, x);
  }

  lemma SliceNotMentioned(r: Expr, x: string)
    requires r.SeqSlice? && !Mentions(r.base, x)
    requires r.low.Some? ==> !Mentions(r.low.value, x)
    requires r.high.Some? ==> !Mentions(r.high.value, x)
    ensures !Mentions(r, x)
  {
  }

  /** The call, sequence-literal and struct-literal cases of `SubstEliminates`. */
  lemma {:induction false} SubstEliminatesChildren(e: Expr, x: string, to: Expr)
    requires e.Call? || e.SeqLit? || e.StructLit?
    requires !Mentions(to, x)
    ensures !Mentions(Subst(e, x, to), x)
    decreases e, 0
  {
    match e
    case Call(name, args) =>
      var r := seq(|args|, k requires 0 <= k < |args| => Subst(args[k], x, to));
      assert Subst(e, x, to) == Call(name, r);
      forall k | 0 <= k < |args| ensures !Mentions(r[k], x) {
        SubstEliminates(args[k], x, to);
      }
    case SeqLit(typ, elems) =>
      var r := seq(|elems|, k requires 0 <= k < |elems| => Subst(elems[k], x, to));
      assert Subst(e, x, to) == SeqLit(typ, r);
      forall k | 0 <= k < |elems| ensures !Mentions(r[k], x) {
        SubstEliminates(elems[k], x, to);
      }
    case StructLit(_, fields) =>
      var r := Subst(e, x, to);
      forall k | 0 <= k < |fields| ensures !Mentions(r.fields[k].1, x) {
        SubstEliminates(fields[k].1, x, to);
      }
      FieldsMentionNone(r, 0, x);
  }

  /** The literal of a value is closed: it holds no variable that substitution reaches
      (a `Var` inside a value sits in a symbolic literal), so substitution leaves it alone. */
  lemma {:induction false} LitClosed(v: Val, x: string, to: Expr)
    ensures !Mentions(Lit(v), x)
    ensures Subst(Lit(v), x, to) == Lit(v)
    decreases v
  {
    match v {
      case Seq(_, elems) =>
        forall k | 0 <= k < |elems| ensures !Mentions(Lit(v).elems[k], x) {
          LitClosed(elems[k], x, to);
        }
      case Struct(_, fields) =>
        var r := Lit(v);
        forall k | 0 <= k < |fields| ensures !Mentions(r.fields[k].1, x) {
          LitClosed(fields[k].1, x, to);
        }
        FieldsMentionNone(r, 0, x);
      case _ =>
    }
    SubstNotMentioned(Lit(v), x, to);
  }

  /** Fields none of which mentions `x` do not mention `x`. */
  lemma {:induction false} FieldsMentionNone(e: Expr, i: nat, x: string)
    requires e.StructLit? && i <= |e.fields|
    requires forall k | i <= k < |e.fields| :: !Mentions(e.fields[k].1, x)
    ensures !FieldsMention(e, i, x)
    decreases |e.fields| - i
  {
    if i < |e.fields| {
      FieldsMentionNone(e, i + 1, x);
    }
  }
}
