/** Failure-carrying results shared by every module of the engine. */
module Base {

  /** Go's nil-able results (`nil`, a missing map entry) become `None`. */
  datatype Option<+T> = None | Some(value: T)

  /** Why an evaluation aborts. In the source every one of these is a `panic`,
      so a failure always ends the whole evaluation. */
  datatype Failure =
    | NotSeq                      // asSeq on a non-sequence value
    | NotInt                      // asInt on a non-integer value
    | NotBool                     // asBool on a non-boolean value
    | NotStruct                   // field access on a non-struct value
    | MissingField(field: string) // field access on a struct without that field
    | UnknownFunction(fn: string) // getFn found no function of that name
    | ArityMismatch(fn: string)   // argument count differs from parameter count
    | NonBoolCondition            // ternary condition is a value but not a Bool
    | OperandMismatch             // evalBinop's assert on the operand kinds
    | DivisionByZero              // Go's run-time panic on integer division by zero
    | IndexOutOfRange             // Go's run-time panic on a bad index
    | SliceOutOfRange             // Go's run-time panic on bad slice bounds
    | NotSequenceType             // expectSeq on a type that is not a sequence type
    | OutOfFuel                   // the model's bound on an otherwise unbounded loop

  datatype Result<+T> = Ok(value: T) | Fail(failure: Failure)

  /** Go's `m[key]` on a `map[string]T`, with the map written as an association list:
      the value of the first entry whose key matches, or `None`. */
  function Lookup<T>(entries: seq<(string, T)>, key: string): (r: Option<T>)
    ensures r.None? <==> forall k | 0 <= k < |entries| :: entries[k].0 != key
    ensures r.Some? ==> exists k | 0 <= k < |entries| :: entries[k] == (key, r.value)
  {
    if |entries| == 0 then None
    else if entries[0].0 == key then Some(entries[0].1)
    else Lookup(entries[1..], key)
  }

  /** No key occurs twice, as in a Go map. */
  predicate DistinctKeys<T>(entries: seq<(string, T)>) {
    forall i, j | 0 <= i < j < |entries| :: entries[i].0 != entries[j].0
  }

  /** With distinct keys, looking up the key of an entry finds that entry's value. */
  lemma {:induction false} LookupDistinct<T>(entries: seq<(string, T)>, k: nat)
    requires DistinctKeys(entries) && k < |entries|
    ensures Lookup(entries, entries[k].0) == Some(entries[k].1)
  {
    if k > 0 {
      LookupDistinct(entries[1..], k - 1);
    }
  }
  /** The keys of an association list. */
  function Keys<T>(entries: seq<(string, T)>): set<string> {
    set k | 0 <= k < |entries| :: entries[k].0
  }

  /** With distinct keys there are as many keys as entries. */
  lemma {:induction false} KeysCount<T>(entries: seq<(string, T)>)
    requires DistinctKeys(entries)
    ensures |Keys(entries)| == |entries|
  {
    if |entries| > 0 {
      var init := entries[..|entries| - 1];
      var last := entries[|entries| - 1].0;
      KeysCount(init);
      assert Keys(entries) == Keys(init) + {last};
      assert last !in Keys(init);
    }
  }

  /** A subset as large as its superset is the whole superset. */
  lemma SubsetOfSameSize(a: set<string>, b: set<string>)
    requires a <= b && |a| == |b|
    ensures a == b
  {
    var d := b - a;
    assert d + a == b;
    assert d * a == {};
  }

  /** Two maps of the same size, one of whose keys all occur in the other, have the
      same keys: every key of the second occurs in the first. */
  lemma SameKeys<T, U>(a: seq<(string, T)>, b: seq<(string, U)>)
    requires DistinctKeys(a) && DistinctKeys(b) && |a| == |b|
    requires forall k | 0 <= k < |a| :: Lookup(b, a[k].0).Some?
    ensures forall j | 0 <= j < |b| :: Lookup(a, b[j].0).Some?
  {
    KeysCount(a);
    KeysCount(b);
    KeysIncluded(a, b);
    SubsetOfSameSize(Keys(a), Keys(b));
    forall j | 0 <= j < |b| ensures Lookup(a, b[j].0).Some? {
      assert b[j].0 in Keys(a);
    }
  }

  /** Every key of `a` that `b` can look up is a key of `b`. */
  lemma KeysIncluded<T, U>(a: seq<(string, T)>, b: seq<(string, U)>)
    requires forall k | 0 <= k < |a| :: Lookup(b, a[k].0).Some?
    ensures Keys(a) <= Keys(b)
  {
    forall x | x in Keys(a) ensures x in Keys(b) {
      var k :| 0 <= k < |a| && a[k].0 == x;
      var w := Lookup(b, x);
      assert w.Some?;
      var j :| 0 <= j < |b| && b[j] == (x, w.value);
      assert b[j].0 == x;
    }
  }
}
