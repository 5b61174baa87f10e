# A verified model of the gobra-interpreter rewriting engine

The Go program is a small-step rewriting engine for Gobra-style specification
functions. Its terms are expressions: binary and ternary operators, calls, sequence
and struct literals, slices, indexing, field access and integer, boolean and
symbolic literals. It also keeps a registry of named functions with parameter lists
and bodies. The engine takes one reduction step at a time on an expression. Each
step returns the new expression and a progress flag. While stepping, it records
every function call it unfolds (`callExprs`) and every expression it flags as
critical (`criticalExprs`). It also remembers the last critical expression
(`critical`). A driver steps an expression until it is a value. It then evaluates
every logged critical expression on a copy of the context and pairs it with its
value.

The model has three layers.

- **The specification.** The modules `Syntax`, `Values`, `Types`, `Infer`, `Ops`,
  `Registry` and `Semantics` hold pure functions. `Semantics.Step` is one reduction
  step. It is a function of the registry, the expression and the three logs.
- **The engine.** The module `Engine` is the imperative evaluator. `Ctx` is a class
  whose log fields the step methods append to. Each method is proved to compute
  exactly what `Semantics` says, both the result and the new logs. The
  `CallArgsVisitor` module models the visitor of call_args.go in the same way.
- **The proofs about the specification.** `StepProps` proves properties of single
  steps:
  - a value steps without progress and without touching the logs;
  - every non-value either fails or makes progress, so a step without progress
    and without failure happens exactly on values;
  - how each node kind behaves on value operands, with its error cases;
  - a frame property: the logs only grow, and the result of a step never depends
    on the logs.

  `Multistep` defines runs of several steps and composes them. `Gobra` evaluates the
  specification functions of gobra.go (`isRooted`, `pathContents`, `SpecSplit` on an
  empty input, `toPath` on an empty input, `pathAppend`). `Scenarios` states concrete
  evaluations and the quirks of the step rules.

A Go `panic` becomes a `Fail(f)` result that ends the evaluation. The unbounded
`reduceUntilVal` loop gets a `fuel` bound. A struct literal's Go map becomes an
association list, so the list order fixes the iteration order that Go leaves
unspecified.

Where the code and the prose description of the system disagree, the model follows
the code:

- `bytes.SpecSplit` of an empty byte string evaluates to the empty sequence of
  segments (`Gobra.SpecSplitOfEmpty`), not to a sequence holding one empty segment.
- The driver loop in `main` neither reads nor clears the last critical expression.
  `Engine.CriticalAssertions` uses only the critical-expression log.
- `evalBinop` has no case for symbolic operands. A comparison of symbolic values is
  an operand-mismatch failure, not a new symbolic value.

## Model

| member | source | states |
|---|---|---|
| Base.Lookup | expr.go:586-589 | a map read finds the value of a matching key, and finds none exactly when no entry has that key |
| Base.LookupDistinct | expr.go:586-589 | with distinct keys, as in a Go map, looking up any entry's key yields that entry's value |
| Types.Render | type.go:21-59 | `int`/`bool`/`byte` for the primitives, `seq[...]` around the rendering of the element type, and the name of an abstract type |
| Types.RenderInjective | type.go:41-59 | two concrete types with the same rendering are the same type |
| Types.ExpectSeq | type.go:66-72 | a sequence type is returned as it is; any other type, or none, fails with NotSequenceType |
| Syntax.ToValue | expr.go:227-238 | a variable is a symbolic value; a sequence or struct literal is a value exactly when every element or field is one; operator, call, slice, index and field-access nodes are never values |
| Syntax.ToValueIffValueForm | expr.go:227-303 | `ToValue` succeeds exactly on the value forms: atoms, and sequence or struct literals built from value forms |
| Syntax.Lit | expr.go:504-526 | the literal of a sequence keeps its tag and length; the literal of a struct keeps its type name, its field count and its field names in order |
| Syntax.LitRoundTrip | expr.go:504-526 | converting the literal of any value back gives that very value |
| Syntax.LitClosed | expr.go:504-526 | the literal of a value mentions no variable that substitution reaches, so substitution leaves it unchanged |
| Syntax.Subst | expr.go:559-564 | a matching variable becomes the replacement; other atoms stay as they are; every other node keeps its kind (binary and ternary operators, calls, sequence and struct literals, slices, indexing, field access), its operator, name, tag, field names and arity |
| Syntax.SubstNotMentioned | expr.go:86-88 | substituting a variable that does not occur changes nothing |
| Syntax.SubstEliminates | expr.go:188-195 | after substituting a variable by a term that does not mention it, the variable no longer occurs |
| Values.Equals | val.go:14-89 | equality is by kind: integers, booleans and symbolic values by payload; sequences by length and element-wise; structs by field count, with every field of the receiver found in the other and equal there (where val.go panics on a missing field, the model answers not equal); values of different kinds are never equal |
| Values.EqualsSymmetric | val.go:73-89 | on well-formed values (distinct field names) equality is symmetric, so it does not matter which side's fields are iterated |
| Values.EqualsReflexive | val.go:14-89 | every well-formed value equals itself |
| Values.EqualsIgnoresSeqTag | val.go:14-31 | sequence equality ignores the type tag on either side |
| Values.EqualsIgnoresStructName | val.go:73-89 | struct equality ignores the type name on either side |
| Values.AsSeq | val.go:91-97 | a sequence is returned as it is; any other kind fails with NotSeq |
| Values.AsInt | val.go:99-105 | the integer payload of an integer; any other kind fails with NotInt |
| Values.AsBool | val.go:107-113 | the boolean payload of a boolean; any other kind fails with NotBool |
| Registry.GetFn | main.go:64-72 | the first registered function of that name; UnknownFunction exactly when no function has that name |
| Registry.GetFnDistinct | main.go:64-72 | in a registry with distinct names, looking up the name of any registered function finds that very function |
| Registry.TryGetFn | type.go:106-114 | the lookup type inference uses: some function exactly when `GetFn` finds one, and the same function |
| Infer.BinopMatch | type.go:74-83 | the comparison opcodes and `and` are boolean; the arithmetic opcodes are integer |
| Infer.TypeOf | type.go:85-129 | inference fails only with NotSequenceType (on an index into a known non-sequence type); an untagged sequence literal whose type is known has a sequence type |
| Infer.FirstElemTypeIsFirstKnown | type.go:115-126 | an untagged sequence literal gets the sequence type of its first element of known type, and is unknown exactly when no element's type is known |
| Infer.TypeOfValueOk | type.go:85-129 | type inference never fails on a value form |
| Infer.LitType | type.go:101-117 | literals have type `int` or `bool`, a tagged sequence its tag, and a struct its type name |
| Infer.IndexType | type.go:93-99 | indexing gives unknown for an abstract base, the element type for a sequence base, and NotSequenceType for any other base |
| Infer.CallType | type.go:106-114 | a call has the return type of the first registered function of that name, and is unknown when none is registered |
| Infer.SeqOf | expr.go:536-541 | `seq(args...)` is a sequence literal of exactly `args`, whose inferred tag, when known, is a sequence type; it fails only with NotSequenceType |
| Infer.SeqOfValues | expr.go:536-541 | `seq(...)` of values never fails, and gives the sequence value of those values in order |
| Ops.TruncDiv | main.go:46-47 | Go's integer division: the remainder is smaller than the divisor in magnitude and has the sign of the dividend |
| Ops.EvalBinop | main.go:30-56 | the arithmetic opcodes need two integers; division fails on zero and truncates; concatenation needs two sequences and joins their elements; `==` is structural equality; every other operand combination is OperandMismatch |
| Ops.ConcatEmptyIdentity | main.go:48-50 | concatenating an empty sequence on the right gives a sequence equal to the left operand |
| Semantics.Step | expr.go:10-16 | one step only appends to the call log and the critical log |
| Semantics.StepBinop | expr.go:32-53 | the binary-operator step only appends to the logs |
| Semantics.StepTernop | expr.go:106-123 | the conditional step only appends to the logs |
| Semantics.CallArgs | expr.go:146-160 | the argument loop only appends to the logs |
| Semantics.CallFinish | expr.go:164-181 | the tail of a call step only appends to the logs |
| Semantics.StepSeqLit | expr.go:208-225 | the sequence-literal step only appends to the logs |
| Semantics.SeqElems | expr.go:214-224 | the element loop only appends to the logs |
| Semantics.StructFields | expr.go:271-289 | the field loop only appends to the logs |
| Semantics.StepSlice | expr.go:333-379 | the slice step only appends to the logs |
| Semantics.SliceHigh | expr.go:356-363 | the high-bound part of the slice step only appends to the logs |
| Semantics.SliceFinish | expr.go:366-378 | the end of the slice step only appends to the logs |
| Semantics.StepIndex | expr.go:411-425 | the index step only appends to the logs |
| Semantics.StepField | expr.go:575-592 | the field-access step only appends to the logs |
| Semantics.Reduce | main.go:658-669 | a whole reduction only appends to the logs |
| Engine.Ctx.constructor | main.go:58-62 | a context over a registry starts with empty logs |
| Engine.Ctx.Copy | main.go:671-673 | a by-value copy has the same registry and logs |
| Engine.Step | expr.go:10-16 | the imperative step computes exactly `Semantics.Step`: the same result, and the context's logs become the logs that `Semantics.Step` gives |
| Engine.StepBinop | expr.go:32-53 | `Binop.Step`'s result and new logs are those of `Semantics.StepBinop` |
| Engine.StepTernop | expr.go:106-123 | `Ternop.Step`'s result and new logs are those of `Semantics.StepTernop` |
| Engine.StepCall | expr.go:146-160 | the argument loop of `Call.Step` computes what `Semantics.CallArgs` describes |
| Engine.CallFinish | expr.go:164-181 | the tail of `Call.Step` (`len`, logging, lookup, arity check, substitution, recording the last critical expression) computes what `Semantics.CallFinish` describes |
| Engine.StepSeqLit | expr.go:208-225 | `SeqLit.Step` computes what `Semantics.StepSeqLit` describes |
| Engine.StepStructLit | expr.go:271-289 | `StructLit.Step` computes what `Semantics.StructFields` describes |
| Engine.StepSlice | expr.go:333-365 | `SeqSlice.Step` computes what `Semantics.StepSlice` describes |
| Engine.SliceFinish | expr.go:366-378 | the end of `SeqSlice.Step` (bounds, element literals, last critical expression, tag) computes what `Semantics.SliceFinish` describes |
| Engine.StepIndex | expr.go:411-425 | `SeqIndex.Step` computes what `Semantics.StepIndex` describes |
| Engine.StepField | expr.go:575-592 | `FieldAccess.Step` computes what `Semantics.StepField` describes |
| Engine.ReduceUntilVal | main.go:658-669 | the step loop returns the first value reached, or the first failure, and leaves the logs that `Semantics.Reduce` gives |
| Engine.EvaluatesTo | main.go:671-673 | evaluation on a copy gives `Semantics.Reduce`'s value and changes nothing in the caller's context |
| Engine.CriticalAssertions | main.go:707-711 | on success, one pair per logged critical expression, in log order, each holding the expression and the value it reduces to; a failure is the failure of the first critical expression that does not reduce, all earlier ones having reduced |
| Engine.SeqStr | main.go:649-656 | one integer literal per character, holding its code point, in order; tagged `seq[int]` unless the string is empty, exactly as `seq(...)` would tag it |
| CallArgsVisitor.NonValues | call_args.go:10-15 | no more arguments are collected than there are |
| CallArgsVisitor.NonValuesMembers | call_args.go:10-15 | the collected arguments are exactly the arguments that are not values |
| CallArgsVisitor.NonValuesSingleton | call_args.go:11-13 | one argument is collected exactly when it is not a value |
| CallArgsVisitor.NonValuesAppend | call_args.go:10-15 | the non-values of `a + b` are those of `a` followed by those of `b`: the visitor keeps argument order and multiplicity |
| CallArgsVisitor.CollectedIsDirectNonValueArgs | call_args.go:7-17 | only direct arguments of a call are collected, never a variable; an argument is collected exactly when it is not a value; other nodes collect nothing |
| CallArgsVisitor.CallArgs.constructor | call_args.go:3-5 | a fresh visitor has collected nothing |
| CallArgsVisitor.CallArgs.Visit | call_args.go:7-17 | a visit appends the non-value arguments of a call, in order, and leaves everything else as it was |
| StepProps.StepSettled | expr.go:439-441 | a fully tagged value form is a value, and steps to itself without progress and without touching the logs |
| StepProps.LitSettled | expr.go:504-526 | the literal of a value whose sequences are all tagged is such a fully tagged value form |
| StepProps.SettledTagged | expr.go:227-238 | a fully tagged value form converts to a value whose sequences are all tagged |
| StepProps.SeqElemsOfSettled | expr.go:214-224 | a sequence literal whose elements are all settled (fully tagged) values is rebuilt from those very elements under the inferred tag and reports no progress |
| StepProps.SeqLitSteps | expr.go:208-225 | a sequence literal of values, tagged or not, steps without progress to the literal of its elements' filled forms under the tag that inference gives it, which is again a value |
| StepProps.ValueSteps | expr.go:208-303 | any value, tagged or not, steps without failure, without progress and without touching the logs to its filled form: a value with the same atoms, lengths, struct names and field names, whose existing tags are kept and whose untagged sequence literals receive their inferred tag |
| StepProps.FilledSettled | expr.go:439-441 | a fully tagged value is its own filled form |
| StepProps.FilledValue | expr.go:208-225 | filling in tags keeps a value's kind, its integer, boolean or symbolic payload, a sequence's length and existing tag, and a struct's name and field names |
| StepProps.FilledEquals | val.go:14-89 | a well-formed value `Equals` its filled form, so tag filling never changes what `==` decides |
| StepProps.FilledTypeOf | type.go:85-129 | the filled form of a value has the type inferred for the value itself |
| StepProps.FilledFixed | expr.go:208-225 | stepping a value a second time changes nothing: a filled form is its own filled form |
| StepProps.Progress | expr.go:32-592 | every non-value either fails or makes progress in one step |
| StepProps.NoProgressIffValue | expr.go:32-592 | a step succeeds without progress exactly when the expression is a value |
| StepProps.AndShortCircuit | expr.go:40-44 | `false && r` steps to `false` with progress and never steps `r` |
| StepProps.BinopOnValues | expr.go:32-53 | on any two values, tagged or not, the step leaves the logs alone and gives, with progress, the literal of `evalBinop` applied to the two operands' filled forms, or its failure; `and` on a non-boolean left value fails with NotBool |
| StepProps.TernopOnValue | expr.go:106-123 | on any value as condition: `true` picks the first branch, `false` the second, and a value of any other kind is NonBoolCondition; the logs are unchanged |
| StepProps.CallArgsValues | expr.go:150-160 | when every argument is a value, tagged or not, the argument loop logs nothing and hands the arguments from the current position on, in their filled forms, to the tail of the call |
| StepProps.CallArgsSettled | expr.go:150-160 | when every argument is a settled (fully tagged) value, the argument loop passes them through unchanged to the tail of the call |
| StepProps.CallLen | expr.go:150-167 | `len` of any sequence value, tagged or not, is its element count, with progress and no logging; `len` of a value of another kind is NotSeq |
| StepProps.CallUnfold | expr.go:150-181 | a call on any values is appended, with its arguments in filled form, to both logs; then an unknown name is UnknownFunction, an arity mismatch is ArityMismatch, and otherwise the result is the body with the filled arguments substituted for the parameters, and the call as written is the last critical expression |
| StepProps.CallStepsFirstArg | expr.go:150-159 | a non-value first argument is logged as critical before it is stepped, and the call then reports that argument's step |
| StepProps.SliceFinishBounds | expr.go:366-378 | a slice succeeds exactly when `0 <= low <= high <= len`, with progress and the elements from `low` to `high`, keeping the base's tag when it has one (an untagged base gets the inferred tag), and records the slice as the last critical expression exactly when `low != 0`; otherwise it is SliceOutOfRange with the logs unchanged |
| StepProps.SliceOnValues | expr.go:333-379 | a slice of any sequence value with literal bounds finishes in one step on the base's filled form, which has the same length and keeps an existing tag; missing bounds default to 0 and the length; slicing a value of another kind is NotSeq |
| StepProps.IndexOnValues | expr.go:411-425 | indexing any sequence value gives, with progress, the literal of the element at an in-range index of its filled form, and IndexOutOfRange otherwise; indexing a value of another kind is NotSeq; the logs are unchanged |
| StepProps.FieldOnValue | expr.go:575-592 | field access on any value, tagged or not: NotStruct for a non-struct, MissingField for an absent field, otherwise the literal of the field's value in the struct's filled form; the logs are unchanged |
| StepProps.FieldAccessDropped | expr.go:576-579 | while the object is not a value, a field access steps to the stepped object itself and the field selection is lost |
| StepProps.StepFrame | expr.go:146-182 | stepping after earlier log entries is stepping on empty logs with those entries prepended: the result is the same and the logs only grow at the end |
| StepProps.StepLogIndependent | expr.go:146-182 | a step's result never depends on the logs, and the logs it leaves extend the ones it was given |
| StepProps.ReduceFrame | main.go:658-669 | the same frame property for a whole reduction |
| StepProps.ReduceLogIndependent | main.go:658-669 | the value a reduction reaches never depends on the logs, and the logs only grow |
| Multistep.RunsTrans | main.go:658-669 | two runs compose when the intermediate expression is not a value |
| Multistep.RunsReduce | main.go:658-669 | a run that ends at a value is what `reduceUntilVal` computes, given enough fuel |
| Multistep.RunsInCondition | expr.go:106-111 | a run of the condition is a run of the ternary |
| Multistep.RunsInLeft | expr.go:34-38 | a run of the left operand is a run of the binary operator |
| Multistep.RunsInRight | expr.go:46-50 | once the left operand is a value, tagged or not (and `true` for `and`), a run of the right operand is a run of the binary operator, whose left operand is in filled form after the first step |
| Gobra.Chr | expr.go:528-530 | a byte is an integer literal in 0..255 |
| Gobra.Library | gobra.go:11-149 | the library registers eight functions under distinct names, so each name resolves to its own definition |
| Gobra.LastIndexRuns | gobra.go:7-9 | `lastIndex` of any sequence value, tagged or not, reduces in two steps to its length minus one, logging nothing |
| Gobra.IsRootedRuns | gobra.go:121-133 | `isRooted(p)` on a byte string reduces to whether `p` is non-empty with first byte `'/'`; on the empty string the `p[0]` operand alone would fail as out of range |
| Gobra.PathContentsEvaluates | gobra.go:104-119 | `pathContents(p)` evaluates to `p` without its leading `'/'` when rooted and to `p` otherwise; it logs `pathContents(p)` and `isRooted(p)`, and leaves the slice, or `isRooted(p)`, as the last critical expression |
| Gobra.SpecSplitInnerOnEmpty | gobra.go:22-32 | `SpecSplitInner` on an empty remainder gives the empty sequence of segments for an empty accumulator, and the accumulator alone otherwise |
| Gobra.SpecSplitOfEmpty | gobra.go:11-20 | `SpecSplit` of an empty byte string evaluates to the empty sequence of segments |
| Gobra.NewPathRuns | gobra.go:70-80 | `newPath(rooted)` unfolds to a `Path` with no parts and the given `rooted` flag, which is a value |
| Gobra.ToPathOnEmpty | gobra.go:82-102 | `toPath` of an empty segment sequence evaluates to a `Path` with no parts and the given `rooted` flag |
| Gobra.PathAppendUnfolds | gobra.go:135-149 | for a fully tagged `Path` value `p` that does not mention the parameter name `s` (otherwise the in-order parameter substitution of expr.go:176-178 would also rewrite inside `p`) and a fully tagged segment `s`, `pathAppend(p, s)` unfolds to the `Path` literal built from `p`'s fields and `s`, and has type `Path` |
| Gobra.PathAppendEvaluates | gobra.go:135-149 | for a fully tagged `Path` value `p` that does not mention the parameter name `s` (otherwise the in-order parameter substitution of expr.go:176-178 would also rewrite inside `p`) and a fully tagged segment `s`, `pathAppend(p, s)` evaluates to a `Path` whose parts are `p`'s parts followed by `s`, with `p`'s `rooted` flag |
| Scenarios.IndexExample | expr.go:411-425 | `{10, 20, 30}[1]` is 20, and `{10, 20, 30}[3]` aborts as out of range |
| Scenarios.SliceExample | expr.go:361-378 | `{1, 2, 3, 4}[1:3]` is `{2, 3}` and becomes the last critical expression; `{1, 2, 3, 4}[0:2]` is `{1, 2}` and does not |
| Scenarios.TagInferredWithoutProgress | expr.go:208-225 | an untagged literal of values gets its inferred tag in a step that reports no progress |
| Scenarios.CriticalHoldsOriginalCall | expr.go:169-179 | the call log holds the call with its stepped arguments, while the last critical expression is the call as it was before the step |
| Scenarios.ParametersSubstitutedInOrder | expr.go:176-178 | parameters are substituted one after another, so a later substitution also rewrites what an earlier one brought in |

## Left out

- String rendering (`String` of every node, type and value, with its indentation state) is left out. It does not affect evaluation.
- Printing and the other statements of `main` are left out. They are output only. The trace loop is modelled as `Engine.CriticalAssertions`.
- The copies of the node types in main.go (lines 74-570) are left out. expr.go redefines these nodes, and it is the version modelled.
- infer_typ.go is not part of this model.
- `Gt`, `Lt` and `And` in `Ops.EvalBinop`: main.go's `evalBinop` has no case for them, and its default fails. The model assumes integer comparison and boolean conjunction, which agrees with the `bool` type that inference gives these opcodes. The opcodes themselves are not declared in main.go's enum.
- `Ops.EvalBinop`: there is no symbolic-operand case, because the code has none.
- `Ops.EvalBinop`: the source builds a concatenation with an empty type tag. The model leaves it untagged.
- `Ops.EvalBinop`: Go's `int` is 64 bits wide, and the model's integers are unbounded. Overflow wrap-around is not modelled.
- `Values.Equals`: when two structs have the same field count but a field of the receiver is missing from the other, val.go:83 calls `Equals` on a nil `Val` and panics. The model answers "not equal" there instead of failing, so `==` on such structs gives `false` where the source aborts.
- `Values.Equals`: Go compares the `Expr` inside two `SymVal`s with `==`, which can panic on uncomparable dynamic types. The model compares them structurally.
- `Engine.SeqStr`: the code point of each character is taken as the character's value. The source's UTF-8 split and decode are not modelled.
- `Engine.ReduceUntilVal`: the source loops without bound. The model stops with `OutOfFuel` after `fuel` steps. Non-termination of a specification function is therefore not captured.
- `Registry.TryGetFn`: its definition is not among the sources. The model takes it as `getFn` with "none" in place of the panic.
- The `critical` field of `Ctx` is not among the sources' declarations, but expr.go assigns it. The model adds it to `Engine.Ctx`.
- `SymLit.Type` is not among the sources. The model takes a symbolic literal's type as unknown.
- Struct literals and values: Go maps become association lists. `StructLit.Step` visits fields in list order, where Go's order is unspecified.
- No environment semantics is given to variables, so substitution is not proved to agree with one. `Syntax.SubstNotMentioned` and `Syntax.SubstEliminates` state what substitution does syntactically.
- The `a,b` split that `main` runs is not proved to evaluate to `{"a", "b"}`. Only the empty-input cases of `SpecSplit` and `toPath` are proved, along with `isRooted`, `pathContents` and `pathAppend` on all tagged inputs.
- The library functions of gobra.go (`Gobra.Len`, `Gobra.LastIndex`, `Gobra.SpecSplit`, `Gobra.SpecSplitInner`, `Gobra.ToPath`, `Gobra.NewPath`, `Gobra.ToPathRec`, `Gobra.PathContents`, `Gobra.IsRooted`, `Gobra.PathAppend`) are expression trees with no contract of their own. Their meaning is what evaluating them does, which the `Gobra.*Runs` and `Gobra.*Evaluates` lemmas state.
- `Gobra.IsRootedRuns`: its byte string must already carry its tags. An untagged literal, such as the empty string that `Engine.SeqStr` builds, only receives its tag on the first step (`StepProps.ValueSteps`), and this run does not trace that step.
- `Gobra.PathContentsEvaluates`: its byte string must already carry its tags. An untagged literal, such as the empty string that `Engine.SeqStr` builds, only receives its tag on the first step (`StepProps.ValueSteps`), and this run does not trace that step.
- `Gobra.SpecSplitOfEmpty`: its empty byte string must already carry its tags. An untagged literal, such as the empty string that `Engine.SeqStr` builds, only receives its tag on the first step (`StepProps.ValueSteps`), and this run does not trace that step.
- `Gobra.PathAppendEvaluates`: `p` and `s` must already carry their tags. An untagged literal, such as the empty string that `Engine.SeqStr` builds, only receives its tag on the first step (`StepProps.ValueSteps`), and this run does not trace that step.
- `ToPath` (the top-level entry of gobra.go, lines 58-68) is defined in the fixture registry, but no evaluation of it is proved. It calls `SpecSplit` on a non-empty input.
