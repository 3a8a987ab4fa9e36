/** UnorderedArrayTable (libs/lib_unordered_array_table/unordered_array_table.h):
    a map kept as an unsorted sequence of key/value rows in insertion order,
    whose insert refuses a present key and whose erase refuses an absent one. */
module UnorderedArrayTables {
  import opened Wrappers
  import opened Strings

  datatype Row<K, V> = Row(key: K, value: V)

  type Table<K, V> = seq<Row<K, V>>

  /** The two std::invalid_argument exceptions. */
  datatype TableError = KeyAlreadyExists | KeyNotFound

  /** Some row carries the key. */
  predicate HasKey<K(==), V>(t: Table<K, V>, key: K) {
    exists i :: 0 <= i < |t| && t[i].key == key
  }

  /** No key occurs in two rows. */
  predicate Unique<K(==), V>(t: Table<K, V>) {
    forall a, b :: 0 <= a < b < |t| ==> t[a].key != t[b].key
  }

  /** The scan every operation performs: the first row with the key, or |t|. */
  function RowIndex<K(==), V>(t: Table<K, V>, key: K): (i: nat)
    ensures i <= |t|
    ensures i < |t| ==> t[i].key == key
    ensures forall j :: 0 <= j < i ==> t[j].key != key
  {
    if t == [] then 0
    else if t[0].key == key then 0
    else 1 + RowIndex(t[1..], key)
  }

  lemma {:induction false} RowIndexFound<K, V>(t: Table<K, V>, key: K)
    ensures RowIndex(t, key) < |t| <==> HasKey(t, key)
  {
  }

  /** The empty table of the default constructor. */
  function Empty<K, V>(): (t: Table<K, V>)
    ensures |t| == 0 && Unique(t)
  {
    []
  }

  /** insert (unordered_array_table.h:33-45): a present key is an error and
      leaves the table as it was; a new key is appended as the last row. */
  function Insert<K(==), V>(t: Table<K, V>, key: K, value: V): (r: Result<Table<K, V>, TableError>)
    ensures HasKey(t, key) <==> r.Failure?
    ensures r.Failure? ==> r.error == KeyAlreadyExists
    ensures r.Success? ==> |r.value| == |t| + 1 && r.value[..|t|] == t && r.value[|t|] == Row(key, value)
  {
    RowIndexFound(t, key);
    if RowIndex(t, key) < |t| then Failure(KeyAlreadyExists)
    else Success(t + [Row(key, value)])
  }

  /** erase (unordered_array_table.h:47-57): the first row with the key is
      removed, the rest keep their order; an absent key is an error. */
  function Erase<K(==), V>(t: Table<K, V>, key: K): (r: Result<Table<K, V>, TableError>)
    ensures HasKey(t, key) <==> r.Success?
    ensures r.Failure? ==> r.error == KeyNotFound
    ensures r.Success? ==> exists i :: 0 <= i < |t| && t[i].key == key && r.value == t[..i] + t[i + 1..]
  {
    RowIndexFound(t, key);
    var i := RowIndex(t, key);
    if i < |t| then Success(t[..i] + t[i + 1..])
    else Failure(KeyNotFound)
  }

  /** find (unordered_array_table.h:59-79): the value of the first row with
      the key; None stands for the null pointer. */
  function Find<K(==), V>(t: Table<K, V>, key: K): (r: Option<V>)
    ensures r.Some? <==> HasKey(t, key)
    ensures r.Some? ==> Row(key, r.value) in t
  {
    RowIndexFound(t, key);
    var i := RowIndex(t, key);
    if i < |t| then Some(t[i].value) else None
  }

  /** contains (unordered_array_table.h:120-123). */
  function Contains<K(==), V>(t: Table<K, V>, key: K): (b: bool)
    ensures b <==> HasKey(t, key)
  {
    Find(t, key) != None
  }

  /** size (unordered_array_table.h:91-94): the number of rows. */
  function Size<K, V>(t: Table<K, V>): nat {
    |t|
  }

  /** is_empty (unordered_array_table.h:81-84). */
  function IsEmpty<K, V>(t: Table<K, V>): (b: bool)
    ensures b <==> Size(t) == 0
  {
    t == []
  }

  /** clear (unordered_array_table.h:86-89). */
  function Clear<K, V>(t: Table<K, V>): (r: Table<K, V>)
    ensures IsEmpty(r) && Unique(r)
  {
    []
  }

  /** get_keys (unordered_array_table.h:109-118): the keys in row order. */
  function GetKeys<K, V>(t: Table<K, V>): (ks: seq<K>)
    ensures |ks| == |t|
    ensures forall i :: 0 <= i < |t| ==> ks[i] == t[i].key
  {
    if t == [] then [] else [t[0].key] + GetKeys(t[1..])
  }

  /** One row as to_string prints it; the element printers are parameters. */
  function RowLine<K, V>(row: Row<K, V>, showKey: K -> string, showValue: V -> string): string {
    "{" + showKey(row.key) + "} : {" + showValue(row.value) + "}"
  }

  function RowLines<K, V>(t: Table<K, V>, showKey: K -> string, showValue: V -> string): (ls: seq<string>)
    ensures |ls| == |t|
    ensures forall i :: 0 <= i < |t| ==> ls[i] == RowLine(t[i], showKey, showValue)
  {
    if t == [] then [] else [RowLine(t[0], showKey, showValue)] + RowLines(t[1..], showKey, showValue)
  }

  const Header: string := "{key} : {value}"

  /** to_string (unordered_array_table.h:96-107): the header line and one
      line per row, each ended by a newline. */
  function ToString<K, V>(t: Table<K, V>, showKey: K -> string, showValue: V -> string): string {
    Terminated([Header] + RowLines(t, showKey, showValue), '\n')
  }

  // ----- properties -----

  /** Insert then find: the new key reads back its value, every other key
      reads back what it did before. */
  lemma {:induction false} FindAfterInsert<K, V>(t: Table<K, V>, key: K, value: V, other: K)
    requires Insert(t, key, value).Success?
    ensures Find(Insert(t, key, value).value, key) == Some(value)
    ensures other != key ==> Find(Insert(t, key, value).value, other) == Find(t, other)
  {
    var r := Insert(t, key, value).value;
    assert RowIndex(r, key) == |t| by {
      RowIndexFound(t, key);
    }
    if other != key {
      var i, k := RowIndex(t, other), RowIndex(r, other);
      assert forall j :: 0 <= j < |t| ==> r[j] == t[j];
      if i < |t| {
        assert r[i].key == other;
        assert k == i;
      } else {
        assert r[|t|].key != other;
        assert k == |r|;
      }
    }
  }

  /** Erase then find: in a table with unique keys the erased key is gone
      and every other key reads back what it did before. */
  lemma {:induction false} FindAfterErase<K, V>(t: Table<K, V>, key: K, other: K)
    requires Unique(t)
    requires Erase(t, key).Success?
    ensures Find(Erase(t, key).value, key) == None
    ensures other != key ==> Find(Erase(t, key).value, other) == Find(t, other)
  {
    var i := RowIndex(t, key);
    RowIndexFound(t, key);
    var r := Erase(t, key).value;
    assert r == t[..i] + t[i + 1..];
    assert forall j :: 0 <= j < |r| ==> r[j] == (if j < i then t[j] else t[j + 1]);
    assert !HasKey(r, key);
    if other != key {
      var o := RowIndex(t, other);
      RowIndexFound(t, other);
      RowIndexFound(r, other);
      if o < |t| {
        var o' := if o < i then o else o - 1;
        assert r[o'] == t[o];
        assert RowIndex(r, other) == o';
      } else {
        assert !HasKey(r, other);
      }
    }
  }

  /** Keys stay unique under insert and erase. */
  lemma {:induction false} UpdatesKeepUnique<K, V>(t: Table<K, V>, key: K, value: V)
    requires Unique(t)
    ensures Insert(t, key, value).Success? ==> Unique(Insert(t, key, value).value)
    ensures Erase(t, key).Success? ==> Unique(Erase(t, key).value)
  {
    if Erase(t, key).Success? {
      var i := RowIndex(t, key);
      var r := Erase(t, key).value;
      assert forall j :: 0 <= j < |r| ==> r[j] == (if j < i then t[j] else t[j + 1]);
    }
  }

  /** Insert grows the size by one and erase shrinks it by one; clear gives
      an empty table. */
  lemma {:induction false} SizeAfterUpdates<K, V>(t: Table<K, V>, key: K, value: V)
    ensures Insert(t, key, value).Success? ==> Size(Insert(t, key, value).value) == Size(t) + 1
    ensures Erase(t, key).Success? ==> Size(Erase(t, key).value) == Size(t) - 1
    ensures Size(Clear(t)) == 0
  {
  }

  /** Every listed key is found, and in a table with unique keys the listed
      keys are pairwise distinct. */
  lemma {:induction false} KeysFound<K, V>(t: Table<K, V>)
    ensures forall i :: 0 <= i < |t| ==> Contains(t, GetKeys(t)[i])
    ensures Unique(t) ==> forall a, b :: 0 <= a < b < |t| ==> GetKeys(t)[a] != GetKeys(t)[b]
  {
    forall i | 0 <= i < |t|
      ensures Contains(t, GetKeys(t)[i])
    {
      assert t[i].key == GetKeys(t)[i];
    }
  }

  /** When the printed keys and values hold no newline, the lines of
      to_string are the header, one line per row in order, and the empty
      remainder after the final newline. */
  lemma {:induction false} ToStringLines<K, V>(t: Table<K, V>, showKey: K -> string, showValue: V -> string)
    requires forall i :: 0 <= i < |t| ==> Free(showKey(t[i].key), '\n') && Free(showValue(t[i].value), '\n')
    ensures Split(ToString(t, showKey, showValue), '\n') == [Header] + RowLines(t, showKey, showValue) + [""]
  {
    var ls := [Header] + RowLines(t, showKey, showValue);
    var ws := ls + [""];
    LinesFree(t, showKey, showValue);
    TerminatedJoin(ls, '\n', "");
    assert Terminated(ls, '\n') + "" == Terminated(ls, '\n');
    SplitJoin(ws, '\n');
  }

  /** A row line holds no character that its key and value texts lack,
      other than the braces, the space and the colon around them. */
  lemma {:induction false} RowLineFree<K, V>(row: Row<K, V>, showKey: K -> string, showValue: V -> string)
    requires Free(showKey(row.key), '\n') && Free(showValue(row.value), '\n')
    ensures Free(RowLine(row, showKey, showValue), '\n')
  {
    var k, v := showKey(row.key), showValue(row.value);
    FreeAppend("{", k, '\n');
    FreeAppend("{" + k, "} : {", '\n');
    FreeAppend("{" + k + "} : {", v, '\n');
    FreeAppend("{" + k + "} : {" + v, "}", '\n');
  }

  /** The header, the row lines and the empty remainder hold no newline. */
  lemma {:induction false} LinesFree<K, V>(t: Table<K, V>, showKey: K -> string, showValue: V -> string)
    requires forall i :: 0 <= i < |t| ==> Free(showKey(t[i].key), '\n') && Free(showValue(t[i].value), '\n')
    ensures AllFree([Header] + RowLines(t, showKey, showValue) + [""], '\n')
  {
    RowLinesFree(t, showKey, showValue);
    FramedFree(RowLines(t, showKey, showValue));
  }

  lemma {:induction false} RowLinesFree<K, V>(t: Table<K, V>, showKey: K -> string, showValue: V -> string)
    requires forall i :: 0 <= i < |t| ==> Free(showKey(t[i].key), '\n') && Free(showValue(t[i].value), '\n')
    ensures AllFree(RowLines(t, showKey, showValue), '\n')
  {
    var ls := RowLines(t, showKey, showValue);
    forall i | 0 <= i < |t|
      ensures Free(ls[i], '\n')
    {
      RowLineFree(t[i], showKey, showValue);
    }
  }

  lemma {:induction false} FramedFree(ls: seq<string>)
    requires AllFree(ls, '\n')
    ensures AllFree([Header] + ls + [""], '\n')
  {
    var ws := [Header] + ls + [""];
    forall i | 0 <= i < |ws|
      ensures Free(ws[i], '\n')
    {
      if i == 0 {
        HeaderFree();
      } else if i <= |ls| {
        assert ws[i] == ls[i - 1];
      } else {
        assert ws[i] == "";
      }
    }
  }

  lemma {:induction false} HeaderFree()
    ensures Free(Header, '\n')
  {
    FreeAppend("{key} : ", "{value}", '\n');
    assert Header == "{key} : " + "{value}";
  }
}
