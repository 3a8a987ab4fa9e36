/** Splitting a string at a separator character, and the two ways the
    source writes a list of pieces: separator between pieces, or after each. */
module Strings {
  /** The first index of c in s, or |s| when c does not occur. */
  function IndexOf(s: string, c: char): (i: nat)
    ensures i <= |s|
    ensures i < |s| ==> s[i] == c
    ensures forall k :: 0 <= k < i ==> s[k] != c
  {
    if s == [] then 0
    else if s[0] == c then 0
    else 1 + IndexOf(s[1..], c)
  }

  /** The pieces of s between occurrences of the separator; a string without
      the separator is one piece. */
  function Split(s: string, sep: char): seq<string>
    decreases |s|
  {
    var i := IndexOf(s, sep);
    if i == |s| then [s] else [s[..i]] + Split(s[i + 1..], sep)
  }

  /** The pieces with the separator between neighbours. */
  function Join(ws: seq<string>, sep: char): string {
    if ws == [] then []
    else if |ws| == 1 then ws[0]
    else ws[0] + [sep] + Join(ws[1..], sep)
  }

  /** Every piece followed by the separator, as a stream writes each value
      and then the separator. */
  function Terminated(ws: seq<string>, sep: char): string {
    if ws == [] then [] else ws[0] + [sep] + Terminated(ws[1..], sep)
  }

  predicate Free(w: string, c: char) {
    forall k :: 0 <= k < |w| ==> w[k] != c
  }

  predicate AllFree(ws: seq<string>, c: char) {
    forall i :: 0 <= i < |ws| ==> Free(ws[i], c)
  }

  lemma {:induction false} FreeAppend(a: string, b: string, c: char)
    requires Free(a, c) && Free(b, c)
    ensures Free(a + b, c)
  {
    forall k | 0 <= k < |a + b|
      ensures (a + b)[k] != c
    {
      if k >= |a| {
        assert (a + b)[k] == b[k - |a|];
      }
    }
  }

  lemma {:induction false} SplitFree(a: string, sep: char)
    requires Free(a, sep)
    ensures Split(a, sep) == [a]
  {
    assert IndexOf(a, sep) == |a|;
  }

  lemma {:induction false} SplitCons(a: string, sep: char, b: string)
    requires Free(a, sep)
    ensures Split(a + [sep] + b, sep) == [a] + Split(b, sep)
  {
    var s := a + [sep] + b;
    assert s[|a|] == sep;
    assert forall k :: 0 <= k < |a| ==> s[k] == a[k];
    assert IndexOf(s, sep) == |a|;
    assert s[..|a|] == a;
    assert s[|a| + 1..] == b;
  }

  /** Splitting undoes joining when no piece contains the separator. */
  lemma {:induction false} SplitJoin(ws: seq<string>, sep: char)
    requires |ws| > 0 && AllFree(ws, sep)
    ensures Split(Join(ws, sep), sep) == ws
  {
    if |ws| == 1 {
      SplitFree(ws[0], sep);
    } else {
      assert Free(ws[0], sep);
      SplitCons(ws[0], sep, Join(ws[1..], sep));
      SplitJoin(ws[1..], sep);
    }
  }

  /** A terminated list is the joined list with one more separator, or with
      a closing piece after that separator. */
  lemma {:induction false} TerminatedJoin(ws: seq<string>, sep: char, last: string)
    requires |ws| > 0
    ensures Terminated(ws, sep) == Join(ws, sep) + [sep]
    ensures Terminated(ws, sep) + last == Join(ws + [last], sep)
  {
    if |ws| == 1 {
      assert Terminated(ws[1..], sep) == [];
      assert (ws + [last])[1..] == [last];
    } else {
      TerminatedJoin(ws[1..], sep, last);
      assert (ws + [last])[1..] == ws[1..] + [last];
    }
  }
}
