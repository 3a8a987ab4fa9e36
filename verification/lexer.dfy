/** The lexer of the expression engine (libs/lib_expression/expression.cpp:201-226, 273-370):
    raw text to a sequence of Number, Identifier, bracket, Separator and
    Operator tokens, or an unknown-symbol error. */
module Lexer {
  import opened Wrappers
  import opened Lexemes

  /** The only way lexing fails: an unexpected character at a token start. */
  datatype LexError = UnknownSymbol(pos: nat)

  /** A numeral as the lexer reads it: a digit followed by digits and at most
      one decimal point. */
  predicate IsNumeral(t: string) {
    && |t| > 0
    && IsDigit(t[0])
    && (forall k :: 0 <= k < |t| ==> IsDigit(t[k]) || t[k] == '.')
    && (forall a, b :: 0 <= a < b < |t| && t[a] == '.' ==> t[b] != '.')
  }

  /** What is_valid_identifier accepts: a letter or underscore followed by
      letters, digits and underscores. */
  predicate ValidIdentifier(name: string) {
    && |name| > 0
    && IsIdentStart(name[0])
    && forall k :: 1 <= k < |name| ==> IsIdentChar(name[k])
  }

  /** The shape every lexed token has. */
  predicate WellFormed(t: Lexeme) {
    match t.cat
    case Number => IsNumeral(t.text)
    case Identifier => ValidIdentifier(t.text)
    case LeftBracket => |t.text| == 1 && IsOpenBracket(t.text[0])
    case RightBracket => |t.text| == 1 && IsCloseBracket(t.text[0])
    case Separator => t.text == ","
    case Operator => |t.text| == 1 && IsOperatorChar(t.text[0])
    case _ => false
  }

  /** The input with every space deleted. */
  function RemoveSpaces(s: string): string {
    if s == [] then []
    else (if s[0] == ' ' then [] else [s[0]]) + RemoveSpaces(s[1..])
  }

  /** The token texts concatenated in order. */
  function Concat(ts: seq<Lexeme>): string {
    if ts == [] then [] else ts[0].text + Concat(ts[1..])
  }

  /** is_valid_identifier (expression.cpp:201-226), with the same early exits. */
  method IsValidIdentifier(name: string) returns (r: bool)
    ensures r <==> ValidIdentifier(name)
  {
    if |name| == 0 {
      return false;
    }
    var first := name[0];
    if !IsLetter(first) && first != '_' {
      return false;
    }
    var i := 1;
    while i < |name|
      invariant 1 <= i <= |name|
      invariant forall k :: 1 <= k < i ==> IsIdentChar(name[k])
    {
      var c := name[i];
      if !IsLetter(c) && !IsDigit(c) && c != '_' {
        return false;
      }
      i := i + 1;
    }
    return true;
  }

  /** Where the numeral run that continues at i ends: digits are taken, and a
      '.' is taken only while none has been taken yet (expression.cpp:291-308). */
  function NumberEnd(s: string, i: nat, hasDot: bool): (j: nat)
    requires i <= |s|
    ensures i <= j <= |s|
    ensures forall k :: i <= k < j ==> IsDigit(s[k]) || s[k] == '.'
    ensures hasDot ==> forall k :: i <= k < j ==> s[k] != '.'
    ensures forall a, b :: i <= a < b < j && s[a] == '.' ==> s[b] != '.'
    ensures j < |s| ==> !IsDigit(s[j]) && (s[j] == '.' ==> hasDot || exists k :: i <= k < j && s[k] == '.')
    decreases |s| - i
  {
    if i < |s| && IsDigit(s[i]) then NumberEnd(s, i + 1, hasDot)
    else if i < |s| && s[i] == '.' && !hasDot then NumberEnd(s, i + 1, true)
    else i
  }

  /** Where the identifier run that continues at i ends (expression.cpp:318-324). */
  function IdentEnd(s: string, i: nat): (j: nat)
    requires i <= |s|
    ensures i <= j <= |s|
    ensures forall k :: i <= k < j ==> IsIdentChar(s[k])
    ensures j < |s| ==> !IsIdentChar(s[j])
    decreases |s| - i
  {
    if i < |s| && IsIdentChar(s[i]) then IdentEnd(s, i + 1) else i
  }

  /** Every token lies in s at its recorded position, after offset i. */
  predicate Positioned(s: string, i: nat, ts: seq<Lexeme>) {
    forall k :: 0 <= k < |ts| ==>
      && i <= ts[k].pos
      && ts[k].pos + |ts[k].text| <= |s|
      && s[ts[k].pos .. ts[k].pos + |ts[k].text|] == ts[k].text
  }

  /** Each token ends before the next one starts. */
  predicate Ordered(ts: seq<Lexeme>) {
    forall k :: 0 <= k < |ts| - 1 ==> ts[k].pos + |ts[k].text| <= ts[k + 1].pos
  }

  /** The token that starts at the non-space, known character s[i], and the
      offset just after it (expression.cpp:285-364). */
  function NextToken(s: string, i: nat): (r: (Lexeme, nat))
    requires i < |s| && IsKnownStart(s[i]) && s[i] != ' '
    ensures var (t, j) := r;
      && i < j <= |s| && t.text == s[i..j] && t.pos == i && WellFormed(t)
      && forall k :: i <= k < j ==> s[k] != ' '
    ensures r.0.cat == Number <==> IsDigit(s[i])
    ensures r.0.cat == Identifier <==> IsIdentStart(s[i])
    ensures r.0.cat == Number && r.1 < |s| ==>
      !IsDigit(s[r.1]) && (s[r.1] == '.' ==> exists k :: i <= k < r.1 && s[k] == '.')
    ensures r.0.cat == Identifier && r.1 < |s| ==> !IsIdentChar(s[r.1])
  {
    var c := s[i];
    if IsDigit(c) then
      var j := NumberEnd(s, i, false);
      (Lexeme(Number, s[i..j], i), j)
    else if IsIdentStart(c) then
      var j := IdentEnd(s, i);
      (Lexeme(Identifier, s[i..j], i), j)
    else if IsOpenBracket(c) then (Lexeme(LeftBracket, [c], i), i + 1)
    else if IsCloseBracket(c) then (Lexeme(RightBracket, [c], i), i + 1)
    else if c == ',' then (Lexeme(Separator, [c], i), i + 1)
    else (Lexeme(Operator, [c], i), i + 1)
  }

  /** The tokenizer loop from offset i on (expression.cpp:277-369). */
  function Lex(s: string, i: nat): (r: Result<seq<Lexeme>, LexError>)
    requires i <= |s|
    ensures r.Success? ==> Concat(r.value) == RemoveSpaces(s[i..])
    ensures r.Success? ==> Positioned(s, i, r.value) && Ordered(r.value)
    ensures r.Success? ==> forall k :: 0 <= k < |r.value| ==> WellFormed(r.value[k])
    ensures r.Failure? ==> i <= r.error.pos < |s| && !IsKnownStart(s[r.error.pos])
    decreases |s| - i
  {
    if i == |s| then Success([])
    else if s[i] == ' ' then
      LexSpace(s, i);
      Lex(s, i + 1)
    else if !IsKnownStart(s[i]) then Failure(UnknownSymbol(i))
    else
      var (t, j) := NextToken(s, i);
      var rest :- Lex(s, j);
      LexToken(s, i, j, t, rest);
      Success([t] + rest)
  }

  /** The tokenizer (expression.cpp:273-370). */
  function Tokenize(s: string): (r: Result<seq<Lexeme>, LexError>)
    ensures r.Success? ==> Concat(r.value) == RemoveSpaces(s)
    ensures r.Success? ==> Positioned(s, 0, r.value) && Ordered(r.value)
    ensures r.Success? ==> forall k :: 0 <= k < |r.value| ==> WellFormed(r.value[k])
    ensures r.Failure? ==> r.error.pos < |s| && !IsKnownStart(s[r.error.pos])
  {
    assert s[0..] == s;
    Lex(s, 0)
  }

  // ----- proof steps of Lex -----

  lemma {:induction false} RemoveSpacesAppend(a: string, b: string)
    ensures RemoveSpaces(a + b) == RemoveSpaces(a) + RemoveSpaces(b)
  {
    if a == [] {
      assert a + b == b;
    } else {
      assert (a + b)[1..] == a[1..] + b;
      RemoveSpacesAppend(a[1..], b);
    }
  }

  lemma {:induction false} RemoveSpacesNone(a: string)
    requires forall k :: 0 <= k < |a| ==> a[k] != ' '
    ensures RemoveSpaces(a) == a
  {
    if a != [] {
      RemoveSpacesNone(a[1..]);
    }
  }

  lemma {:induction false} LexSpace(s: string, i: nat)
    requires i < |s| && s[i] == ' '
    ensures RemoveSpaces(s[i..]) == RemoveSpaces(s[i + 1..])
  {
    assert s[i..][1..] == s[i + 1..];
  }

  lemma {:induction false} LexToken(s: string, i: nat, j: nat, t: Lexeme, rest: seq<Lexeme>)
    requires i < j <= |s| && IsKnownStart(s[i]) && s[i] != ' '
    requires t.text == s[i..j] && t.pos == i
    requires forall k :: i <= k < j ==> s[k] != ' '
    requires Concat(rest) == RemoveSpaces(s[j..])
    requires Positioned(s, j, rest) && Ordered(rest)
    ensures Concat([t] + rest) == RemoveSpaces(s[i..])
    ensures Positioned(s, i, [t] + rest) && Ordered([t] + rest)
  {
    LexConcat(s, i, j, t, rest);
    LexPositioned(s, i, j, t, rest);
    LexOrdered(s, i, j, t, rest);
  }

  /** The text of a token read at i, followed by the rest, is the input
      from i on without its spaces. */
  lemma {:induction false} LexConcat(s: string, i: nat, j: nat, t: Lexeme, rest: seq<Lexeme>)
    requires i < j <= |s| && t.text == s[i..j]
    requires forall k :: i <= k < j ==> s[k] != ' '
    requires Concat(rest) == RemoveSpaces(s[j..])
    ensures Concat([t] + rest) == RemoveSpaces(s[i..])
  {
    assert s[i..] == s[i..j] + s[j..];
    RemoveSpacesAppend(s[i..j], s[j..]);
    RemoveSpacesNone(s[i..j]);
    assert ([t] + rest)[1..] == rest;
  }

  /** A token read at i, followed by the rest, lies in s from i on. */
  lemma {:induction false} LexPositioned(s: string, i: nat, j: nat, t: Lexeme, rest: seq<Lexeme>)
    requires i < j <= |s| && t.text == s[i..j] && t.pos == i
    requires Positioned(s, j, rest)
    ensures Positioned(s, i, [t] + rest)
  {
    forall k | 0 < k < |rest| + 1
      ensures var u := ([t] + rest)[k]; i <= u.pos && u.pos + |u.text| <= |s| && s[u.pos .. u.pos + |u.text|] == u.text
    {
      assert ([t] + rest)[k] == rest[k - 1];
    }
  }

  /** A token read at i ends where the rest starts, at j or later. */
  lemma {:induction false} LexOrdered(s: string, i: nat, j: nat, t: Lexeme, rest: seq<Lexeme>)
    requires i < j <= |s| && t.text == s[i..j] && t.pos == i
    requires Positioned(s, j, rest) && Ordered(rest)
    ensures Ordered([t] + rest)
  {
    forall k | 0 < k < |rest|
      ensures ([t] + rest)[k].pos + |([t] + rest)[k].text| <= ([t] + rest)[k + 1].pos
    {
      assert ([t] + rest)[k] == rest[k - 1];
      assert ([t] + rest)[k + 1] == rest[k];
    }
    if |rest| > 0 {
      assert ([t] + rest)[1] == rest[0];
    }
  }

  /** Positions strictly increase along the whole token sequence. */
  lemma {:induction false} PositionsIncrease(ts: seq<Lexeme>, a: nat, b: nat)
    requires Ordered(ts)
    requires forall k :: 0 <= k < |ts| ==> WellFormed(ts[k])
    requires a < b < |ts|
    ensures ts[a].pos < ts[b].pos
    decreases b - a
  {
    assert |ts[a].text| > 0 by {
      var t := ts[a];
      assert WellFormed(t);
    }
    if a + 1 < b {
      PositionsIncrease(ts, a + 1, b);
    }
  }

  /** A lone numeral, decimal point included, lexes to one Number token. */
  lemma {:induction false} NumeralLexes(s: string)
    requires IsNumeral(s)
    ensures Tokenize(s) == Success([Lexeme(Number, s, 0)])
  {
    NumberRunsToEnd(s, 0, false);
    assert s[0..|s|] == s;
    var t := Lexeme(Number, s, 0);
    assert NextToken(s, 0) == (t, |s|);
    assert Lex(s, |s|) == Success([]);
    assert [t] + [] == [t];
  }

  /** A lone valid identifier lexes to one Identifier token. */
  lemma {:induction false} IdentifierLexes(s: string)
    requires ValidIdentifier(s)
    ensures Tokenize(s) == Success([Lexeme(Identifier, s, 0)])
  {
    IdentRunsToEnd(s, 1);
    assert s[0..|s|] == s;
    var t := Lexeme(Identifier, s, 0);
    assert NextToken(s, 0) == (t, |s|);
    assert Lex(s, |s|) == Success([]);
    assert [t] + [] == [t];
  }

  lemma {:induction false} NumberRunsToEnd(s: string, i: nat, hasDot: bool)
    requires i <= |s|
    requires forall k :: i <= k < |s| ==> IsDigit(s[k]) || s[k] == '.'
    requires forall a, b :: i <= a < b < |s| && s[a] == '.' ==> s[b] != '.'
    requires hasDot ==> forall k :: i <= k < |s| ==> s[k] != '.'
    ensures NumberEnd(s, i, hasDot) == |s|
    decreases |s| - i
  {
    if i < |s| {
      NumberRunsToEnd(s, i + 1, hasDot || s[i] == '.');
    }
  }

  lemma {:induction false} IdentRunsToEnd(s: string, i: nat)
    requires 0 < i <= |s| && IsIdentStart(s[0])
    requires forall k :: i <= k < |s| ==> IsIdentChar(s[k])
    ensures IdentEnd(s, i) == |s| && IdentEnd(s, 0) == IdentEnd(s, 1)
    decreases |s| - i
  {
    if i < |s| {
      IdentRunsToEnd(s, i + 1);
    }
  }

  /** Lexing fails at the first unknown character the scan reaches: the input
      before the reported position lexes. */
  lemma {:induction false} FailsAtFirst(s: string)
    requires Tokenize(s).Failure?
    ensures Tokenize(s[..Tokenize(s).error.pos]).Success?
  {
    var p := Tokenize(s).error.pos;
    assert s[0..] == s;
    LexPrefix(s, 0, p);
    assert s[..p][0..] == s[..p];
  }

  lemma {:induction false} LexPrefix(s: string, i: nat, p: nat)
    requires i <= p <= |s| && Lex(s, i) == Failure(UnknownSymbol(p))
    ensures Lex(s[..p], i).Success?
    decreases |s| - i
  {
    var u := s[..p];
    if i == p {
      assert |u| == i;
    } else {
      assert u[i] == s[i];
      if s[i] == ' ' {
        LexPrefix(s, i + 1, p);
      } else {
        assert IsKnownStart(s[i]);
        var j := NextToken(s, i).1;
        assert Lex(s, j) == Failure(UnknownSymbol(p));
        NextTokenPrefix(s, i, p);
        LexPrefix(s, j, p);
        LexStep(u, i, j);
      }
    }
  }

  lemma {:induction false} LexStep(u: string, i: nat, j: nat)
    requires i < |u| && IsKnownStart(u[i]) && u[i] != ' ' && NextToken(u, i).1 == j
    requires Lex(u, j).Success?
    ensures Lex(u, i).Success?
  {
  }

  /** Cutting the input after the token read at i leaves that token. */
  lemma {:induction false} NextTokenPrefix(s: string, i: nat, p: nat)
    requires i < |s| && IsKnownStart(s[i]) && s[i] != ' '
    requires NextToken(s, i).1 <= p <= |s|
    ensures NextToken(s[..p], i) == NextToken(s, i)
  {
    var c := s[i];
    var j := NextToken(s, i).1;
    assert s[..p][i] == c;
    if IsDigit(c) {
      NumberEndPrefix(s, i, false, p);
    } else if IsIdentStart(c) {
      IdentEndPrefix(s, i, p);
    }
    assert s[..p][i..j] == s[i..j];
  }

  lemma {:induction false} NumberEndPrefix(s: string, i: nat, hasDot: bool, p: nat)
    requires i <= |s| && NumberEnd(s, i, hasDot) <= p <= |s|
    ensures NumberEnd(s[..p], i, hasDot) == NumberEnd(s, i, hasDot)
    decreases |s| - i
  {
    if i < |s| && IsDigit(s[i]) {
      NumberEndPrefix(s, i + 1, hasDot, p);
    } else if i < |s| && s[i] == '.' && !hasDot {
      NumberEndPrefix(s, i + 1, true, p);
    }
  }

  lemma {:induction false} IdentEndPrefix(s: string, i: nat, p: nat)
    requires i <= |s| && IdentEnd(s, i) <= p <= |s|
    ensures IdentEnd(s[..p], i) == IdentEnd(s, i)
    decreases |s| - i
  {
    if i < |s| && IsIdentChar(s[i]) {
      IdentEndPrefix(s, i + 1, p);
    }
  }

  /** A string made only of characters that can start a token lexes
      successfully: the only failure is an unknown character. */
  lemma {:induction false} KnownCharactersLex(s: string)
    requires forall k :: 0 <= k < |s| ==> IsKnownStart(s[k])
    ensures Tokenize(s).Success?
  {
  }
}
