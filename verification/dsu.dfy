/** The disjoint-set union of libs/lib_dsu/dsu.cpp: a parent array with
    union by rank and recursive path compression. The two heap arrays are
    modelled as sequences, and every operation returns the new state. */
module Dsus {
  import opened Wrappers

  /** The parent of every element and the rank of every element. */
  datatype Dsu = Dsu(parents: seq<int>, ranks: seq<nat>)

  /** The std::out_of_range exception, with the name of the throwing member. */
  datatype DsuError = OutOfRange(where: string)

  /** The result of find: the representative, and the state after path
      compression. */
  datatype Found = Found(root: nat, dsu: Dsu)

  function Size(d: Dsu): nat {
    |d.parents|
  }

  /** The shape every reachable state has: both arrays have the same
      length, parents are elements, and ranks grow strictly from a child
      to its parent. The last fact is what makes the parent chains end. */
  predicate Valid(d: Dsu) {
    && |d.ranks| == |d.parents|
    && (forall i :: 0 <= i < |d.parents| ==> 0 <= d.parents[i] < |d.parents|)
    && (forall i :: 0 <= i < |d.parents| && d.parents[i] != i ==> d.ranks[i] < d.ranks[d.parents[i]])
  }

  predicate IsRoot(d: Dsu, i: nat)
    requires i < |d.parents|
  {
    d.parents[i] == i
  }

  /** An upper bound of all ranks. */
  function Top(ranks: seq<nat>): (m: nat)
    ensures forall i :: 0 <= i < |ranks| ==> ranks[i] <= m
  {
    if ranks == [] then 0
    else
      var m := Top(ranks[1..]);
      assert forall i :: 1 <= i < |ranks| ==> ranks[i] == ranks[1..][i - 1];
      if ranks[0] > m then ranks[0] else m
  }

  /** The representative of i: the root its parent chain ends in, read
      without changing the state. This is the reference find is held to. */
  function Rep(d: Dsu, i: nat): (r: nat)
    requires Valid(d) && i < Size(d)
    ensures r < Size(d) && IsRoot(d, r)
    decreases Top(d.ranks) - d.ranks[i]
  {
    if d.parents[i] == i then i else Rep(d, d.parents[i])
  }

  /** Two elements are in the same set. */
  predicate Same(d: Dsu, i: nat, j: nat)
    requires Valid(d) && i < Size(d) && j < Size(d)
  {
    Rep(d, i) == Rep(d, j)
  }

  /** The constructor (dsu.cpp:7-15): every element its own parent, every
      rank zero. */
  function New(n: nat): (d: Dsu)
    ensures Valid(d) && Size(d) == n
    ensures forall i :: 0 <= i < n ==> IsRoot(d, i) && Rep(d, i) == i
  {
    Dsu(seq(n, i => i), seq(n, i => 0))
  }

  /** find_recursive (dsu.cpp:49-55): the root of x, with the parent of
      every element on the path from x set to that root. */
  function FindRecursive(d: Dsu, x: nat): (r: Found)
    requires Valid(d) && x < Size(d)
    ensures r.root == Rep(d, x)
    ensures r.dsu.ranks == d.ranks && Size(r.dsu) == Size(d)
    ensures r.dsu.parents[x] == r.root
    ensures Compressed(d, r.dsu)
    ensures forall i :: 0 <= i < Size(d) ==> r.dsu.parents[i] == (if OnPath(d, x, i) then r.root else d.parents[i])
    decreases Top(d.ranks) - d.ranks[x]
  {
    if d.parents[x] == x then Found(x, d)
    else
      var f := FindRecursive(d, d.parents[x]);
      Found(f.root, f.dsu.(parents := f.dsu.parents[x := f.root]))
  }

  /** i lies on the parent chain from x to its root, both ends included. */
  predicate OnPath(d: Dsu, x: nat, i: nat)
    requires Valid(d) && x < Size(d)
    decreases Top(d.ranks) - d.ranks[x]
  {
    x == i || (d.parents[x] != x && OnPath(d, d.parents[x], i))
  }

  /** The states differ only in that some parents were moved to the
      representative of their child. */
  predicate Compressed(d: Dsu, e: Dsu)
    requires Valid(d)
  {
    && e.ranks == d.ranks && |e.parents| == |d.parents|
    && forall i :: 0 <= i < |d.parents| ==> e.parents[i] == d.parents[i] || e.parents[i] == Rep(d, i)
  }

  /** find (dsu.cpp:41-47): an element outside 0..size-1 is an error. */
  function Find(d: Dsu, x: int): (r: Result<Found, DsuError>)
    requires Valid(d)
    ensures r.Success? <==> 0 <= x < Size(d)
    ensures r.Failure? ==> r.error == OutOfRange("DSU::find()")
    ensures r.Success? ==> r.value.root == Rep(d, x) && Compressed(d, r.value.dsu)
    ensures r.Success? ==> forall i :: 0 <= i < Size(d) ==>
      r.value.dsu.parents[i] == (if OnPath(d, x, i) then r.value.root else d.parents[i])
  {
    if x >= Size(d) || x < 0 then Failure(OutOfRange("DSU::find()"))
    else Success(FindRecursive(d, x))
  }

  /** The linking step of unite (dsu.cpp:30-38) on the two roots px and py:
      the root of lower rank goes under the other; on a tie py goes under px
      and px's rank grows by one, which also happens when px and py are the
      same root. */
  function Link(d: Dsu, px: nat, py: nat): Dsu
    requires |d.ranks| == |d.parents| && px < Size(d) && py < Size(d)
  {
    var linked :=
      if d.ranks[px] >= d.ranks[py] then d.(parents := d.parents[py := px])
      else d.(parents := d.parents[px := py]);
    if linked.ranks[px] == linked.ranks[py] then linked.(ranks := linked.ranks[px := linked.ranks[px] + 1])
    else linked
  }

  /** unite (dsu.cpp:22-39): both elements are checked, both are found
      (compressing both paths), and their roots are linked. */
  function Unite(d: Dsu, x: int, y: int): (r: Result<Dsu, DsuError>)
    requires Valid(d)
    ensures r.Success? <==> 0 <= x < Size(d) && 0 <= y < Size(d)
    ensures r.Failure? ==> r.error == OutOfRange("DSU::unite()")
    ensures r.Success? ==> Size(r.value) == Size(d)
  {
    if x >= Size(d) || y >= Size(d) || x < 0 || y < 0 then Failure(OutOfRange("DSU::unite()"))
    else
      var fx := FindRecursive(d, x);
      CompressedValid(d, fx.dsu);
      var fy := FindRecursive(fx.dsu, y);
      Success(Link(fy.dsu, fx.root, fy.root))
  }

  // ----- properties -----

  /** A non-root element has a smaller rank than its representative. */
  lemma {:induction false} RepRank(d: Dsu, i: nat)
    requires Valid(d) && i < Size(d) && !IsRoot(d, i)
    ensures d.ranks[i] < d.ranks[Rep(d, i)]
    decreases Top(d.ranks) - d.ranks[i]
  {
    var p := d.parents[i];
    if !IsRoot(d, p) {
      RepRank(d, p);
    }
  }

  /** Path compression keeps the state valid and keeps every element's
      representative. */
  lemma {:induction false} CompressedValid(d: Dsu, e: Dsu)
    requires Valid(d) && Compressed(d, e)
    ensures Valid(e)
    ensures forall i :: 0 <= i < Size(d) ==> Rep(e, i) == Rep(d, i)
  {
    forall i | 0 <= i < |e.parents| && e.parents[i] != i
      ensures e.ranks[i] < e.ranks[e.parents[i]]
    {
      if e.parents[i] != d.parents[i] {
        RepRank(d, i);
      }
    }
    forall i | 0 <= i < Size(d)
      ensures Rep(e, i) == Rep(d, i)
    {
      CompressedRep(d, e, i);
    }
  }

  lemma {:induction false} CompressedRep(d: Dsu, e: Dsu, i: nat)
    requires Valid(d) && Valid(e) && Compressed(d, e) && i < Size(d)
    ensures Rep(e, i) == Rep(d, i)
    decreases Top(e.ranks) - e.ranks[i]
  {
    var p := e.parents[i];
    if p != i {
      CompressedRep(d, e, p);
      if p != d.parents[i] {
        RepOfRoot(d, Rep(d, i));
      }
    }
  }

  lemma {:induction false} RepOfRoot(d: Dsu, i: nat)
    requires Valid(d) && i < Size(d) && IsRoot(d, i)
    ensures Rep(d, i) == i
  {
  }

  /** Linking two distinct roots keeps the state valid, and the elements of
      the losing root's set now have the winner as representative. */
  lemma {:induction false} LinkDistinct(d: Dsu, px: nat, py: nat)
    requires Valid(d) && px < Size(d) && py < Size(d)
    requires IsRoot(d, px) && IsRoot(d, py) && px != py
    ensures var w := if d.ranks[px] >= d.ranks[py] then px else py;
      var l := if d.ranks[px] >= d.ranks[py] then py else px;
      && Valid(Link(d, px, py))
      && Link(d, px, py).parents == d.parents[l := w]
      && Link(d, px, py).ranks == (if d.ranks[px] == d.ranks[py] then d.ranks[px := d.ranks[px] + 1] else d.ranks)
      && forall i :: 0 <= i < Size(d) ==> Rep(Link(d, px, py), i) == (if Rep(d, i) == l then w else Rep(d, i))
  {
    var w := if d.ranks[px] >= d.ranks[py] then px else py;
    var l := if d.ranks[px] >= d.ranks[py] then py else px;
    var e := Link(d, px, py);
    assert e.parents == d.parents[l := w];
    assert e.ranks == d.ranks || (e.ranks == d.ranks[w := d.ranks[w] + 1] && d.ranks[l] == d.ranks[w]);
    forall i | 0 <= i < |e.parents| && e.parents[i] != i
      ensures e.ranks[i] < e.ranks[e.parents[i]]
    {
      if i != l {
        assert i != w;
      }
    }
    forall i | 0 <= i < Size(d)
      ensures Rep(e, i) == (if Rep(d, i) == l then w else Rep(d, i))
    {
      LinkRep(d, e, l, w, i);
    }
  }

  lemma {:induction false} LinkRep(d: Dsu, e: Dsu, l: nat, w: nat, i: nat)
    requires Valid(d) && Valid(e) && l < Size(d) && w < Size(d) && l != w
    requires IsRoot(d, l) && IsRoot(d, w)
    requires |e.ranks| == |d.ranks| && e.parents == d.parents[l := w]
    requires i < Size(d)
    ensures Rep(e, i) == (if Rep(d, i) == l then w else Rep(d, i))
    decreases Top(d.ranks) - d.ranks[i]
  {
    if i != l && !IsRoot(d, i) {
      LinkRep(d, e, l, w, d.parents[i]);
    }
  }

  /** Linking a root with itself only raises its rank. */
  lemma {:induction false} LinkSame(d: Dsu, px: nat)
    requires Valid(d) && px < Size(d) && IsRoot(d, px)
    ensures Link(d, px, px) == d.(ranks := d.ranks[px := d.ranks[px] + 1])
    ensures Valid(Link(d, px, px))
    ensures forall i :: 0 <= i < Size(d) ==> Rep(Link(d, px, px), i) == Rep(d, i)
  {
    var e := Link(d, px, px);
    assert d.parents[px := px] == d.parents;
    forall i | 0 <= i < Size(d)
      ensures Rep(e, i) == Rep(d, i)
    {
      RaisedRep(d, e, i);
    }
  }

  lemma {:induction false} RaisedRep(d: Dsu, e: Dsu, i: nat)
    requires Valid(d) && Valid(e) && e.parents == d.parents && i < Size(d)
    ensures Rep(e, i) == Rep(d, i)
    decreases Top(d.ranks) - d.ranks[i]
  {
    if !IsRoot(d, i) {
      RaisedRep(d, e, d.parents[i]);
    }
  }

  /** unite merges exactly the two sets of x and y: an element whose set was
      x's or y's now has the root of higher rank (x's on a tie) as
      representative, and every other element keeps its representative. */
  lemma {:induction false} UniteMerges(d: Dsu, x: nat, y: nat)
    requires Valid(d) && x < Size(d) && y < Size(d)
    ensures var r := Unite(d, x, y).value;
      var rx, ry := Rep(d, x), Rep(d, y);
      var w := if d.ranks[rx] >= d.ranks[ry] then rx else ry;
      && Valid(r)
      && forall i :: 0 <= i < Size(d) ==> Rep(r, i) == (if Rep(d, i) == rx || Rep(d, i) == ry then w else Rep(d, i))
  {
    var fx := FindRecursive(d, x);
    CompressedValid(d, fx.dsu);
    var fy := FindRecursive(fx.dsu, y);
    CompressedValid(fx.dsu, fy.dsu);
    var e := fy.dsu;
    assert fy.root == Rep(d, y);
    if fx.root == fy.root {
      LinkSame(e, fx.root);
    } else {
      LinkDistinct(e, fx.root, fy.root);
    }
  }

  /** The sets after unite: two elements are together exactly when they were
      together before, or one was with x and the other with y. */
  lemma {:induction false} UniteSets(d: Dsu, x: nat, y: nat, i: nat, j: nat)
    requires Valid(d) && x < Size(d) && y < Size(d) && i < Size(d) && j < Size(d)
    ensures Valid(Unite(d, x, y).value)
    ensures Same(Unite(d, x, y).value, i, j) <==>
      Same(d, i, j) || (Same(d, i, x) && Same(d, j, y)) || (Same(d, i, y) && Same(d, j, x))
  {
    UniteMerges(d, x, y);
  }

  /** Uniting elements already in one set changes no representative. */
  lemma {:induction false} UniteJoined(d: Dsu, x: nat, y: nat)
    requires Valid(d) && x < Size(d) && y < Size(d) && Same(d, x, y)
    ensures Valid(Unite(d, x, y).value)
    ensures forall i :: 0 <= i < Size(d) ==> Rep(Unite(d, x, y).value, i) == Rep(d, i)
  {
    UniteMerges(d, x, y);
  }
}
