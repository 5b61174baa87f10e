/** The function registry of the evaluation context (main.go `Ctx.getFn`). */
module Registry {
  import opened Base
  import opened Syntax

  /** `getFn`: the first registered function with the given name; an unknown name
      is a failure. The registry itself is never changed. */
  function GetFn(fns: seq<Func>, name: string): (r: Result<Func>)
    ensures r.Ok? ==> r.value.name == name
    ensures r.Ok? ==> exists i | 0 <= i < |fns| ::
      fns[i] == r.value && forall j | 0 <= j < i :: fns[j].name != name
    ensures r.Fail? <==> forall i | 0 <= i < |fns| :: fns[i].name != name
    ensures r.Fail? ==> r.failure == UnknownFunction(name)
  {
    if |fns| == 0 then Fail(UnknownFunction(name))
    else if fns[0].name == name then Ok(fns[0])
    else GetFn(fns[1..], name)
  }

  /** `tryGetFn`, the non-failing lookup that type inference uses (its definition is
      not among the sources; this one is `getFn` with `None` for the failure). */
  function TryGetFn(fns: seq<Func>, name: string): (r: Option<Func>)
    ensures r.Some? <==> GetFn(fns, name).Ok?
    ensures r.Some? ==> r.value == GetFn(fns, name).value
  {
    match GetFn(fns, name)
    case Ok(f) => Some(f)
    case Fail(_) => None
  }

  /** No two registered functions share a name. */
  predicate DistinctNames(fns: seq<Func>) {
    forall i, j | 0 <= i < j < |fns| :: fns[i].name != fns[j].name
  }

  /** In a registry with distinct names, looking up the name of any registered
      function finds that very function. */
  lemma GetFnDistinct(fns: seq<Func>, i: nat)
    requires DistinctNames(fns) && i < |fns|
    ensures GetFn(fns, fns[i].name) == Ok(fns[i])
  {
    var r := GetFn(fns, fns[i].name);
    var i' :| 0 <= i' < |fns| && fns[i'] == r.value && forall j | 0 <= j < i' :: fns[j].name != fns[i].name;
    assert i' == i;
  }
}
