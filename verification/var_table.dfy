/** The variable bindings of the expression engine
    (libs/lib_var_table/var_table.cpp): a sequence of name/value pairs with
    update-or-append insertion and first-match lookup. */
module VarTables {
  import opened Wrappers
  import Lookups

  datatype Variable = Variable(name: string, value: real)

  type VarTable = seq<Variable>

  datatype VarError = VariableNotFound(name: string)

  /** No name occurs twice. */
  predicate Unique(t: VarTable) {
    forall a, b :: 0 <= a < b < |t| ==> t[a].name != t[b].name
  }

  /** Some entry carries the name. */
  predicate Bound(t: VarTable, name: string) {
    exists k :: 0 <= k < |t| && t[k].name == name
  }

  /** The names of the entries, in table order. */
  function Names(t: VarTable): (ns: seq<string>)
    ensures |ns| == |t| && forall k :: 0 <= k < |t| ==> ns[k] == t[k].name
  {
    seq(|t|, k requires 0 <= k < |t| => t[k].name)
  }

  /** find_index (var_table.cpp:37-45): the smallest index holding the name,
      or -1 when there is none. */
  function FindIndex(t: VarTable, name: string): (r: int)
    ensures -1 <= r < |t|
    ensures r == -1 <==> !Bound(t, name)
    ensures r != -1 ==> t[r].name == name && forall k :: 0 <= k < r ==> t[k].name != name
  {
    Lookups.FirstFrom(Names(t), name, 0)
  }

  /** contains (var_table.cpp:33-35). */
  function Contains(t: VarTable, name: string): (b: bool)
    ensures b <==> Bound(t, name)
  {
    FindIndex(t, name) != -1
  }

  /** add (var_table.cpp:13-21): overwrite the value of the first entry with
      the name, or append a new entry when the name is absent. */
  function Add(t: VarTable, name: string, value: real): (r: VarTable)
    ensures Bound(t, name) ==>
      && |r| == |t|
      && r[FindIndex(t, name)] == Variable(name, value)
      && forall k :: 0 <= k < |t| && k != FindIndex(t, name) ==> r[k] == t[k]
    ensures !Bound(t, name) ==>
      && |r| == |t| + 1
      && r[..|t|] == t
      && r[|t|] == Variable(name, value)
  {
    var index := FindIndex(t, name);
    if index != -1 then t[index := Variable(name, value)]
    else t + [Variable(name, value)]
  }

  /** get (var_table.cpp:23-31). */
  function Get(t: VarTable, name: string): (r: Result<real, VarError>)
    ensures r.Success? <==> Bound(t, name)
    ensures r.Failure? ==> r.error == VariableNotFound(name)
    ensures r.Success? ==> exists k :: 0 <= k < |t| && t[k] == Variable(name, r.value)
  {
    var index := FindIndex(t, name);
    if index != -1 then Success(t[index].value)
    else Failure(VariableNotFound(name))
  }

  /** add keeps names unique. */
  lemma {:induction false} AddKeepsUnique(t: VarTable, name: string, value: real)
    requires Unique(t)
    ensures Unique(Add(t, name, value))
  {
  }

  /** The table after a sequence of add calls. */
  function AddAll(t: VarTable, adds: seq<Variable>): VarTable
    decreases |adds|
  {
    if adds == [] then t else AddAll(Add(t, adds[0].name, adds[0].value), adds[1..])
  }

  /** Names stay unique under any sequence of add calls. */
  lemma {:induction false} AddAllUnique(t: VarTable, adds: seq<Variable>)
    requires Unique(t)
    ensures Unique(AddAll(t, adds))
    decreases |adds|
  {
    if adds != [] {
      AddKeepsUnique(t, adds[0].name, adds[0].value);
      AddAllUnique(Add(t, adds[0].name, adds[0].value), adds[1..]);
    }
  }

  /** After add, the name reads back the new value and every other name reads
      back what it read before. */
  lemma {:induction false} GetAfterAdd(t: VarTable, name: string, value: real, other: string)
    ensures Get(Add(t, name, value), name) == Success(value)
    ensures other != name ==> Get(Add(t, name, value), other) == Get(t, other)
  {
    var r := Add(t, name, value);
    var i := FindIndex(t, name);
    if i == -1 {
      assert r[|t|].name == name;
    }
    if other != name {
      var j := FindIndex(t, other);
      var j' := FindIndex(r, other);
      if j != -1 {
        assert r[j] == t[j];
        assert j' == j;
      }
    }
  }

  /** In a table with unique names, get returns a value exactly when the
      table holds that name/value pair. */
  lemma {:induction false} GetUnique(t: VarTable, name: string, value: real)
    requires Unique(t)
    ensures Get(t, name) == Success(value) <==> Variable(name, value) in t
  {
    if Variable(name, value) in t {
      var k :| 0 <= k < |t| && t[k] == Variable(name, value);
      assert t[FindIndex(t, name)].name == t[k].name;
    }
  }
}
