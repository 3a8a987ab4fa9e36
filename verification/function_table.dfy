/** The function bindings of the expression engine
    (libs/lib_function_table/function_table.cpp): a sequence of name/function
    pairs that refuses duplicate names. The bound function is an opaque value
    of type F (a C++ function pointer). */
module FunctionTables {
  import opened Wrappers
  import Lookups

  datatype Entry<F> = Entry(name: string, func: F)

  type FunctionTable<F> = seq<Entry<F>>

  datatype FunctionError = FunctionAlreadyExists(name: string) | FunctionNotFound(name: string)

  /** No name occurs twice. */
  predicate Unique<F>(t: FunctionTable<F>) {
    forall a, b :: 0 <= a < b < |t| ==> t[a].name != t[b].name
  }

  /** Some entry carries the name. */
  predicate Bound<F>(t: FunctionTable<F>, name: string) {
    exists k :: 0 <= k < |t| && t[k].name == name
  }

  /** The names of the entries, in table order. */
  function Names<F>(t: FunctionTable<F>): (ns: seq<string>)
    ensures |ns| == |t| && forall k :: 0 <= k < |t| ==> ns[k] == t[k].name
  {
    seq(|t|, k requires 0 <= k < |t| => t[k].name)
  }

  /** find_index (function_table.cpp:27-35): the smallest index holding the
      name, or -1 when there is none. */
  function FindIndex<F>(t: FunctionTable<F>, name: string): (r: int)
    ensures -1 <= r < |t|
    ensures r == -1 <==> !Bound(t, name)
    ensures r != -1 ==> t[r].name == name && forall k :: 0 <= k < r ==> t[k].name != name
  {
    Lookups.FirstFrom(Names(t), name, 0)
  }

  /** contains (function_table.cpp:23-25). */
  function Contains<F>(t: FunctionTable<F>, name: string): (b: bool)
    ensures b <==> Bound(t, name)
  {
    FindIndex(t, name) != -1
  }

  /** add (function_table.cpp:6-11): a present name is refused, leaving the
      table as it was; a new name is appended at the end. */
  function Add<F>(t: FunctionTable<F>, name: string, f: F): (r: Result<FunctionTable<F>, FunctionError>)
    ensures r.Failure? <==> Bound(t, name)
    ensures r.Failure? ==> r.error == FunctionAlreadyExists(name)
    ensures r.Success? ==>
      && |r.value| == |t| + 1
      && r.value[..|t|] == t
      && r.value[|t|] == Entry(name, f)
  {
    if Contains(t, name) then Failure(FunctionAlreadyExists(name))
    else Success(t + [Entry(name, f)])
  }

  /** get (function_table.cpp:13-21). */
  function Get<F>(t: FunctionTable<F>, name: string): (r: Result<F, FunctionError>)
    ensures r.Success? <==> Bound(t, name)
    ensures r.Failure? ==> r.error == FunctionNotFound(name)
    ensures r.Success? ==> exists k :: 0 <= k < |t| && t[k] == Entry(name, r.value)
  {
    var index := FindIndex(t, name);
    if index != -1 then Success(t[index].func)
    else Failure(FunctionNotFound(name))
  }

  /** The table after a sequence of add calls, each refused one leaving the
      table as it was. */
  function AddAll<F>(t: FunctionTable<F>, adds: seq<Entry<F>>): FunctionTable<F>
    decreases |adds|
  {
    if adds == [] then t
    else
      var next := Add(t, adds[0].name, adds[0].func);
      AddAll(if next.Success? then next.value else t, adds[1..])
  }

  /** Names stay unique under any sequence of add calls. */
  lemma {:induction false} AddAllUnique<F>(t: FunctionTable<F>, adds: seq<Entry<F>>)
    requires Unique(t)
    ensures Unique(AddAll(t, adds))
    decreases |adds|
  {
    if adds != [] {
      var next := Add(t, adds[0].name, adds[0].func);
      AddAllUnique(if next.Success? then next.value else t, adds[1..]);
    }
  }

  /** A successful add makes the name resolve to the new function and leaves
      every other name resolving as before. */
  lemma {:induction false} GetAfterAdd<F>(t: FunctionTable<F>, name: string, f: F, other: string)
    requires Add(t, name, f).Success?
    ensures Get(Add(t, name, f).value, name) == Success(f)
    ensures other != name ==> Get(Add(t, name, f).value, other) == Get(t, other)
  {
    var r := Add(t, name, f).value;
    assert r[|t|].name == name;
    assert FindIndex(r, name) == |t|;
    if other != name {
      var j := FindIndex(t, other);
      if j != -1 {
        assert r[j] == t[j];
        assert FindIndex(r, other) == j;
      } else {
        assert FindIndex(r, other) == -1;
      }
    }
  }
}
