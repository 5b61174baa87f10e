/** The type language of the engine (type.go): primitive types, sequence types and
    abstract (named, unmodelled) types, with their textual rendering. */
module Types {
  import opened Base

  datatype PrimKind = IntKind | BoolKind | ByteKind

  datatype Type =
    | TAbstract(name: string)
    | TPrim(kind: PrimKind)
    | TSeq(elem: Type)

  /** `tint()`, `tbool()`, `tbyte()` */
  function TInt(): Type { TPrim(IntKind) }
  function TBool(): Type { TPrim(BoolKind) }
  function TByte(): Type { TPrim(ByteKind) }

  /** `String()` of each type: `int`, `bool`, `byte`, `seq[<elem>]`, or the abstract name. */
  function Render(t: Type): (s: string)
    ensures t == TInt() ==> s == "int"
    ensures t == TBool() ==> s == "bool"
    ensures t == TByte() ==> s == "byte"
    ensures t.TSeq? ==> |s| >= 5 && s[..4] == "seq[" && s[|s| - 1] == ']'
    ensures t.TSeq? ==> s[4..|s| - 1] == Render(t.elem)
    ensures t.TAbstract? ==> s == t.name
  {
    match t
    case TAbstract(name) => name
    case TPrim(kind) =>
      (match kind
       case IntKind => "int"
       case BoolKind => "bool"
       case ByteKind => "byte")
    case TSeq(elem) => "seq[" + Render(elem) + "]"
  }

  /** A type built from primitives and sequences only: no abstract name can
      imitate the rendering of another type. */
  predicate Concrete(t: Type) {
    match t
    case TAbstract(_) => false
    case TPrim(_) => true
    case TSeq(elem) => Concrete(elem)
  }

  /** A primitive type renders as a word of three or four letters, shorter than any
      sequence type's rendering. */
  lemma PrimRenderShort(t: Type)
    requires t.TPrim?
    ensures 3 <= |Render(t)| <= 4
  {
    match t.kind
    case IntKind => assert t == TInt();
    case BoolKind => assert t == TBool();
    case ByteKind => assert t == TByte();
  }

  /** Rendering determines a concrete type: two concrete types that print alike are equal. */
  lemma {:induction false} RenderInjective(a: Type, b: Type)
    requires Concrete(a) && Concrete(b) && Render(a) == Render(b)
    ensures a == b
  {
    if a.TPrim? && b.TPrim? {
      assert a == TInt() || a == TBool() || a == TByte();
      assert b == TInt() || b == TBool() || b == TByte();
      if a == TInt() { assert Render(b) == "int"; }
      else if a == TBool() { assert Render(b)[1] == 'o'; }
      else { assert Render(b)[1] == 'y'; }
    } else if a.TPrim? {
      PrimRenderShort(a);
    } else if b.TPrim? {
      PrimRenderShort(b);
    } else {
      var s := Render(a);
      assert Render(a.elem) == s[4..|s| - 1] == Render(b.elem);
      RenderInjective(a.elem, b.elem);
    }
  }

  /** `isAbstract`: Go passes a possibly-nil `Type`; nil is not abstract. */
  predicate IsAbstract(t: Option<Type>) {
    t.Some? && t.value.TAbstract?
  }

  /** `expectSeq`: the type itself when it is a sequence type, a failure otherwise
      (including the unknown, nil, type). */
  function ExpectSeq(t: Option<Type>): (r: Result<Type>)
    ensures r.Ok? <==> t.Some? && t.value.TSeq?
    ensures r.Ok? ==> r.value == t.value
    ensures r.Fail? ==> r.failure == NotSequenceType
  {
    if t.Some? && t.value.TSeq? then Ok(t.value) else Fail(NotSequenceType)
  }
}
