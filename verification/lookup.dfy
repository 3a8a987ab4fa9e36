/** The first-match scan that both binding tables use for find_index
    (libs/lib_var_table/var_table.cpp:37-45,
    libs/lib_function_table/function_table.cpp:27-35), over the names of
    the entries in table order. */
module Lookups {
  /** The smallest index from i on that holds the name, or -1. */
  function FirstFrom(names: seq<string>, name: string, i: nat): (r: int)
    requires i <= |names|
    ensures r == -1 || i <= r < |names|
    ensures r == -1 <==> forall k :: i <= k < |names| ==> names[k] != name
    ensures r != -1 ==> names[r] == name && forall k :: i <= k < r ==> names[k] != name
    decreases |names| - i
  {
    if i == |names| then -1
    else if names[i] == name then i
    else FirstFrom(names, name, i + 1)
  }
}
