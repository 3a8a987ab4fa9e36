/** The parsing pass of the expression engine (libs/lib_expression/expression.cpp:232-255, 372-546):
    reclassification of identifiers and operators, the transition-table
    grammar check and the shunting-yard conversion to postfix. */
module Parser {
  import opened Wrappers
  import opened Lexemes
  import opened Postfix
  import VT = VarTables
  import FT = FunctionTables

  /** The exceptions parse throws, with the data their messages embed. */
  datatype ParseError =
    | UnknownIdentifier(name: string, pos: nat)
    | UnexpectedLexeme(text: string, pos: nat)
    | FunctionWithoutParen(text: string, pos: nat)
    | SeparatorOutside(text: string, pos: nat)
    | UnexpectedClose(text: string, pos: nat)
    | BracketMismatch(open: char, close: char, pos: nat)
    | MissingClose(pos: nat)
    | UnexpectedEnd(pos: nat)

  /** The first character of a token text (bracket tokens have exactly one). */
  function Head(text: string): char {
    if text == [] then ' ' else text[0]
  }

  /** get_priority (expression.cpp:232-248). */
  function Priority(l: Lexeme): int {
    if l.cat == Function then 5
    else if l.cat == UnaryOperator then 4
    else if l.cat == BinaryOperator && l.text == "^" then 3
    else if l.cat == BinaryOperator && (l.text == "*" || l.text == "/") then 2
    else if l.cat == BinaryOperator && (l.text == "+" || l.text == "-") then 1
    else 0
  }

  /** `^` and the unary operators associate to the right (expression.cpp:491-492). */
  predicate RightAssociative(l: Lexeme) {
    l.text == "^" || l.cat == UnaryOperator
  }

  /** Whether the operator on top of the stack is emitted before `cur` is
      pushed (expression.cpp:494-514). */
  predicate PopsBefore(top: Lexeme, cur: Lexeme) {
    if RightAssociative(cur) then Priority(top) > Priority(cur) else Priority(top) >= Priority(cur)
  }

  /** The condition of the operator loop: the top is not an opening bracket
      and binds tightly enough to be emitted first. */
  predicate Pops(top: Lexeme, cur: Lexeme) {
    top.cat != LeftBracket && PopsBefore(top, cur)
  }

  /** is_matching_pair (expression.cpp:250-255). */
  predicate IsMatchingPair(open: char, close: char) {
    (open == '(' && close == ')') || (open == '[' && close == ']')
    || (open == '{' && close == '}') || (open == '|' && close == '|')
  }

  /** The synthetic operator that a closing `|` emits. */
  function AbsToken(pos: nat): Lexeme {
    Lexeme(UnaryOperator, "abs", pos)
  }

  /** The final category of an operator character in context (expression.cpp:389-411). */
  function OperatorRole(text: string, prev: Category): (c: Category)
    ensures text == "|" ==> (c == LeftBracket <==> UnaryContext(prev)) && (c == RightBracket <==> !UnaryContext(prev))
    ensures text == "-" ==> (c == UnaryOperator <==> UnaryContext(prev)) && (c == BinaryOperator <==> !UnaryContext(prev))
    ensures text != "|" && text != "-" ==> c == BinaryOperator
  {
    if text == "|" then (if UnaryContext(prev) then LeftBracket else RightBracket)
    else if text == "-" && UnaryContext(prev) then UnaryOperator
    else BinaryOperator
  }

  /** The reclassification of one token (expression.cpp:378-411): an
      identifier names a function when the function table binds it, otherwise
      a variable when the variable table does, and is an error otherwise;
      operators get their role from the previous category; other tokens keep
      theirs. */
  function Reclassify<F>(l: Lexeme, prev: Category, vars: VT.VarTable, funcs: FT.FunctionTable<F>): (r: Result<Lexeme, ParseError>)
    ensures r.Success? ==> r.value.text == l.text && r.value.pos == l.pos
    ensures l.cat != Identifier && l.cat != Operator ==> r == Success(l)
  {
    if l.cat == Identifier then
      if FT.Contains(funcs, l.text) then Success(l.(cat := Function))
      else if VT.Contains(vars, l.text) then Success(l.(cat := Variable))
      else Failure(UnknownIdentifier(l.text, l.pos))
    else if l.cat == Operator then Success(l.(cat := OperatorRole(l.text, prev)))
    else Success(l)
  }

  /** What reclassification decides: an identifier is an error exactly when
      neither table binds it, a function name exactly when the function table
      does (functions shadow variables), and a variable otherwise; an
      operator gets its role from the previous category. */
  lemma {:induction false} ReclassifyCases<F>(l: Lexeme, prev: Category, vars: VT.VarTable, funcs: FT.FunctionTable<F>)
    ensures var r := Reclassify(l, prev, vars, funcs);
      && (r.Failure? <==> l.cat == Identifier && !FT.Bound(funcs, l.text) && !VT.Bound(vars, l.text))
      && (r.Failure? ==> r.error == UnknownIdentifier(l.text, l.pos))
      && (r.Success? && l.cat == Identifier ==>
            (r.value.cat == Function <==> FT.Bound(funcs, l.text))
            && (r.value.cat == Variable <==> !FT.Bound(funcs, l.text)))
      && (r.Success? && l.cat == Operator ==> r.value.cat == OperatorRole(l.text, prev))
  {
  }

  /** The index of the topmost opening bracket on the stack, or -1. */
  function TopLeft(stack: seq<Lexeme>): (k: int)
    ensures -1 <= k < |stack|
    ensures k >= 0 ==> stack[k].cat == LeftBracket
    ensures forall j :: k < j < |stack| ==> stack[j].cat != LeftBracket
  {
    if stack == [] then -1
    else if stack[|stack| - 1].cat == LeftBracket then |stack| - 1
    else TopLeft(stack[..|stack| - 1])
  }

  /** Popping the top of a stack onto the output: the part from k up, popped
      after the top, is emitted in reverse. */
  lemma {:induction false} PopOne(stack: seq<Lexeme>, k: nat, out: seq<Lexeme>)
    requires k < |stack|
    ensures stack[..|stack| - 1][..k] == stack[..k]
    ensures (out + [stack[|stack| - 1]]) + Reverse(stack[..|stack| - 1][k..]) == out + Reverse(stack[k..])
  {
    var s := stack[k..];
    assert s[..|s| - 1] == stack[..|stack| - 1][k..];
    assert Reverse(s) == [s[|s| - 1]] + Reverse(s[..|s| - 1]);
  }

  /** Pops the stack onto the output until an opening bracket is on top or
      the stack is empty (expression.cpp:439-443, 452-456). */
  function PopToLeft(stack: seq<Lexeme>, out: seq<Lexeme>): (r: (seq<Lexeme>, seq<Lexeme>))
    ensures r.0 == stack[..TopLeft(stack) + 1]
    ensures r.1 == out + Reverse(stack[TopLeft(stack) + 1..])
    decreases |stack|
  {
    if stack == [] || stack[|stack| - 1].cat == LeftBracket then
      (stack, out)
    else
      var n := |stack| - 1;
      var k := TopLeft(stack) + 1;
      assert TopLeft(stack[..n]) + 1 == k;
      PopOne(stack, k, out);
      PopToLeft(stack[..n], out + [stack[n]])
  }

  /** Pops the operators that bind at least as tightly as `cur` (strictly
      tighter when `cur` is right-associative), stopping at an opening
      bracket, then pushes `cur` (expression.cpp:488-518). */
  function PushOperator(stack: seq<Lexeme>, out: seq<Lexeme>, cur: Lexeme): (r: (seq<Lexeme>, seq<Lexeme>))
    ensures 1 <= |r.0| <= |stack| + 1
    ensures r.0 == stack[..|r.0| - 1] + [cur]
    ensures r.1 == out + Reverse(stack[|r.0| - 1..])
    ensures forall j :: |r.0| - 1 <= j < |stack| ==> Pops(stack[j], cur)
    ensures |r.0| > 1 ==> !Pops(stack[|r.0| - 2], cur)
    decreases |stack|
  {
    if stack == [] || !Pops(stack[|stack| - 1], cur) then
      (stack + [cur], out)
    else
      var n := |stack| - 1;
      var r := PushOperator(stack[..n], out + [stack[n]], cur);
      PushUnder(stack, out, cur, r);
      r
  }

  /** The pushes above a popped top are the pushes onto the whole stack. */
  lemma {:induction false} PushUnder(stack: seq<Lexeme>, out: seq<Lexeme>, cur: Lexeme, r: (seq<Lexeme>, seq<Lexeme>))
    requires stack != [] && Pops(stack[|stack| - 1], cur)
    requires var below := stack[..|stack| - 1];
      && 1 <= |r.0| <= |below| + 1
      && r.0 == below[..|r.0| - 1] + [cur]
      && r.1 == (out + [stack[|stack| - 1]]) + Reverse(below[|r.0| - 1..])
      && (forall j :: |r.0| - 1 <= j < |below| ==> Pops(below[j], cur))
      && (|r.0| > 1 ==> !Pops(below[|r.0| - 2], cur))
    ensures 1 <= |r.0| <= |stack| + 1
    ensures r.0 == stack[..|r.0| - 1] + [cur]
    ensures r.1 == out + Reverse(stack[|r.0| - 1..])
    ensures forall j :: |r.0| - 1 <= j < |stack| ==> Pops(stack[j], cur)
    ensures |r.0| > 1 ==> !Pops(stack[|r.0| - 2], cur)
  {
    var k := |r.0| - 1;
    PopOne(stack, k, out);
    PopsExtend(stack, stack[..|stack| - 1], k, cur);
  }

  lemma {:induction false} PopsExtend(stack: seq<Lexeme>, below: seq<Lexeme>, k: nat, cur: Lexeme)
    requires k < |stack| && below == stack[..|stack| - 1]
    requires forall j :: k <= j < |below| ==> Pops(below[j], cur)
    requires Pops(stack[|stack| - 1], cur)
    ensures forall j :: k <= j < |stack| ==> Pops(stack[j], cur)
    ensures k > 0 ==> below[k - 1] == stack[k - 1]
  {
    forall j | k <= j < |stack|
      ensures Pops(stack[j], cur)
    {
      if j < |below| {
        assert below[j] == stack[j];
      }
    }
  }

  /** The handling of a closing bracket (expression.cpp:450-486): pop to the
      topmost opening bracket, which must exist and pair with this one;
      remove it, emit `abs` for `|…|`, and emit a function waiting below it. */
  function CloseBracket(stack: seq<Lexeme>, out: seq<Lexeme>, l: Lexeme): (r: Result<(seq<Lexeme>, seq<Lexeme>), ParseError>)
    ensures var k := TopLeft(stack);
      && (k == -1 ==> r == Failure(UnexpectedClose(l.text, l.pos)))
      && (k >= 0 && !IsMatchingPair(Head(stack[k].text), Head(l.text)) ==>
            r == Failure(BracketMismatch(Head(stack[k].text), Head(l.text), l.pos)))
      && (k >= 0 && IsMatchingPair(Head(stack[k].text), Head(l.text)) ==>
            var abs := if Head(l.text) == '|' then [AbsToken(l.pos)] else [];
            var emitted := out + Reverse(stack[k + 1..]) + abs;
            r.Success? &&
            if k > 0 && stack[k - 1].cat == Function then r.value == (stack[..k - 1], emitted + [stack[k - 1]])
            else r.value == (stack[..k], emitted))
  {
    var (s1, o1) := PopToLeft(stack, out);
    if s1 == [] then Failure(UnexpectedClose(l.text, l.pos))
    else
      var openChar := Head(s1[|s1| - 1].text);
      var closeChar := Head(l.text);
      if !IsMatchingPair(openChar, closeChar) then Failure(BracketMismatch(openChar, closeChar, l.pos))
      else
        var s2 := s1[..|s1| - 1];
        assert s2 == stack[..TopLeft(stack)];
        var o2 := o1 + (if closeChar == '|' then [AbsToken(l.pos)] else []);
        if s2 != [] && s2[|s2| - 1].cat == Function then
          assert s2[..|s2| - 1] == stack[..TopLeft(stack) - 1];
          Success((s2[..|s2| - 1], o2 + [s2[|s2| - 1]]))
        else Success((s2, o2))
  }

  /** What a closing bracket moves: its operators, and its `abs`, land on the
      output; no operand moves from an operand-free stack. */
  lemma {:induction false} CloseBracketKeeps(stack: seq<Lexeme>, out: seq<Lexeme>, l: Lexeme)
    requires l.cat == RightBracket && CloseBracket(stack, out, l).Success?
    ensures Conserves(stack, out, l, CloseBracket(stack, out, l).value.0, CloseBracket(stack, out, l).value.1)
  {
    var r := CloseBracket(stack, out, l).value;
    var k := TopLeft(stack);
    var abs := if Head(l.text) == '|' then [AbsToken(l.pos)] else [];
    Closed(stack, out, l, k, abs, k > 0 && stack[k - 1].cat == Function, r.0, r.1);
  }

  /** Closing the bracket at k: what is above it is popped, `abs` emitted, the
      bracket dropped and, when `call` holds, the function below it emitted. */
  lemma {:induction false} Closed(stack: seq<Lexeme>, out: seq<Lexeme>, l: Lexeme, k: nat, abs: seq<Lexeme>, call: bool, s2: seq<Lexeme>, o2: seq<Lexeme>)
    requires l.cat == RightBracket && abs == if Head(l.text) == '|' then [AbsToken(l.pos)] else []
    requires k < |stack| && stack[k].cat == LeftBracket
    requires call ==> k > 0 && stack[k - 1].cat == Function
    requires s2 == if call then stack[..k - 1] else stack[..k]
    requires o2 == if call then out + Reverse(stack[k + 1..]) + abs + [stack[k - 1]] else out + Reverse(stack[k + 1..]) + abs
    ensures Conserves(stack, out, l, s2, o2)
  {
    Unbracket(stack, out, l, k, abs);
    if call {
      assert stack[..k][..k - 1] == stack[..k - 1];
      CallBelow(stack, out, l, stack[..k], out + Reverse(stack[k + 1..]) + abs);
    }
  }

  /** Removing the opening bracket at k, after popping what is above it, and
      emitting the `abs` that `l` owes. */
  lemma {:induction false} Unbracket(stack: seq<Lexeme>, out: seq<Lexeme>, l: Lexeme, k: nat, abs: seq<Lexeme>)
    requires l.cat == RightBracket && abs == if Head(l.text) == '|' then [AbsToken(l.pos)] else []
    requires k < |stack| && stack[k].cat == LeftBracket
    ensures Conserves(stack, out, l, stack[..k], out + Reverse(stack[k + 1..]) + abs)
  {
    var moved := out + Reverse(stack[k + 1..]);
    PopBracket(stack, out, k);
    AbsKeeps(stack[..k], moved, l, abs);
    KeepsChain(stack, out, stack[..k], moved, stack[..k], moved + abs, multiset{}, [], Operators(abs), []);
    assert [l][..0] == [];
    assert multiset{} + Operators(abs) == Operators([l]) + Bars([l]) by {
      if abs != [] {
        assert abs[..0] == [];
      }
    }
    assert [] + [] == Operands([l]);
  }

  /** Popping down to the opening bracket at k and dropping it. */
  lemma {:induction false} PopBracket(stack: seq<Lexeme>, out: seq<Lexeme>, k: nat)
    requires k < |stack| && stack[k].cat == LeftBracket
    ensures Keeps(stack, out, stack[..k], out + Reverse(stack[k + 1..]), multiset{}, [])
  {
    var moved := out + Reverse(stack[k + 1..]);
    MoveKeeps(stack, out, k + 1);
    assert stack[..k + 1] == stack[..k] + [stack[k]];
    DropKeeps(stack[..k], moved, stack[k]);
    KeepsChain(stack, out, stack[..k + 1], moved, stack[..k], moved, multiset{}, [], multiset{}, []);
  }

  /** How the operators and operands of a stack and an output relate to those
      of an earlier stack and output: `ops` operators were added, and, from an
      operand-free stack, the operands `opds` were appended to the output. */
  predicate Keeps(stack: seq<Lexeme>, out: seq<Lexeme>, s2: seq<Lexeme>, o2: seq<Lexeme>, ops: multiset<Lexeme>, opds: seq<Lexeme>) {
    && Operators(s2) + Operators(o2) == Operators(stack) + Operators(out) + ops
    && (Operands(stack) == [] ==> Operands(s2) == [] && Operands(o2) == Operands(out) + opds)
  }

  lemma {:induction false} KeepsChain(s0: seq<Lexeme>, o0: seq<Lexeme>, s1: seq<Lexeme>, o1: seq<Lexeme>, s2: seq<Lexeme>, o2: seq<Lexeme>,
                                      m1: multiset<Lexeme>, p1: seq<Lexeme>, m2: multiset<Lexeme>, p2: seq<Lexeme>)
    requires Keeps(s0, o0, s1, o1, m1, p1) && Keeps(s1, o1, s2, o2, m2, p2)
    ensures Keeps(s0, o0, s2, o2, m1 + m2, p1 + p2)
  {
  }

  lemma {:induction false} MoveKeeps(stack: seq<Lexeme>, out: seq<Lexeme>, k: nat)
    requires k <= |stack|
    ensures Keeps(stack, out, stack[..k], out + Reverse(stack[k..]), multiset{}, [])
  {
    MoveTop(stack, out, k);
  }

  lemma {:induction false} DropKeeps(stack: seq<Lexeme>, out: seq<Lexeme>, open: Lexeme)
    requires open.cat == LeftBracket
    ensures Keeps(stack + [open], out, stack, out, multiset{}, [])
  {
    assert [open][..0] == [];
    OperatorsAppend(stack, [open]);
    OperandsAppend(stack, [open]);
  }

  lemma {:induction false} AbsKeeps(stack: seq<Lexeme>, out: seq<Lexeme>, l: Lexeme, abs: seq<Lexeme>)
    requires abs == if Head(l.text) == '|' then [AbsToken(l.pos)] else []
    ensures Keeps(stack, out, stack, out + abs, Operators(abs), [])
  {
    Emit(out, abs);
    if abs != [] {
      assert abs[..0] == [];
    }
  }

  /** Emitting the function waiting below a closed bracket keeps the
      account. */
  lemma {:induction false} CallBelow(stack: seq<Lexeme>, out: seq<Lexeme>, l: Lexeme, s: seq<Lexeme>, o: seq<Lexeme>)
    requires Conserves(stack, out, l, s, o) && s != [] && s[|s| - 1].cat == Function
    ensures Conserves(stack, out, l, s[..|s| - 1], o + [s[|s| - 1]])
  {
    var n := |s| - 1;
    assert Reverse(s[n..]) == [s[n]];
    MoveTop(s, o, n);
  }

  /** The `abs` tokens a sequence of reclassified tokens owes: one for every
      closing `|`, placed at its position. */
  function Bars(s: seq<Lexeme>): multiset<Lexeme> {
    if s == [] then multiset{}
    else Bars(s[..|s| - 1]) + (if ClosesBar(s[|s| - 1]) then multiset{AbsToken(s[|s| - 1].pos)} else multiset{})
  }

  predicate ClosesBar(l: Lexeme) {
    l.cat == RightBracket && Head(l.text) == '|'
  }

  lemma {:induction false} BarsAppend(a: seq<Lexeme>, b: seq<Lexeme>)
    ensures Bars(a + b) == Bars(a) + Bars(b)
    decreases |b|
  {
    if b == [] {
      assert a + b == a;
    } else {
      assert (a + b)[..|a + b| - 1] == a + b[..|b| - 1];
      BarsAppend(a, b[..|b| - 1]);
    }
  }

  /** Appending `x` to `out` leaves `out` as a prefix and adds the operands and
      operators of `x`. */
  lemma {:induction false} Emit(out: seq<Lexeme>, x: seq<Lexeme>)
    ensures (out + x)[..|out|] == out
    ensures Operands(out + x) == Operands(out) + Operands(x)
    ensures Operators(out + x) == Operators(out) + Operators(x)
  {
    OperandsAppend(out, x);
    OperatorsAppend(out, x);
  }

  /** The bookkeeping of a single token. */
  lemma One(l: Lexeme)
    ensures Operands([l]) == if IsOperand(l) then [l] else []
    ensures Operators([l]) == if IsOperator(l) then multiset{l} else multiset{}
    ensures Bars([l]) == if ClosesBar(l) then multiset{AbsToken(l.pos)} else multiset{}
  {
    assert [l][..0] == [];
  }

  /** What a separator moves: the operators above the topmost opening
      bracket land on the output. */
  lemma {:induction false} SeparatorKeeps(stack: seq<Lexeme>, out: seq<Lexeme>, l: Lexeme)
    requires l.cat == Separator
    ensures Conserves(stack, out, l, PopToLeft(stack, out).0, PopToLeft(stack, out).1)
  {
    var k := TopLeft(stack) + 1;
    One(l);
    MoveTop(stack, out, k);
  }


  /** The shunting-yard action for one reclassified token (expression.cpp:427-522).
      It fails only for a separator outside brackets or a closing bracket
      without its partner, and it never takes back what it has emitted. */
  function Shunt(stack: seq<Lexeme>, out: seq<Lexeme>, l: Lexeme): (r: Result<(seq<Lexeme>, seq<Lexeme>), ParseError>)
    ensures r.Failure? <==>
      || (l.cat == Separator && TopLeft(stack) == -1)
      || (l.cat == RightBracket && (TopLeft(stack) == -1 || !IsMatchingPair(Head(stack[TopLeft(stack)].text), Head(l.text))))
    ensures l.cat == Separator && TopLeft(stack) == -1 ==> r == Failure(SeparatorOutside(l.text, l.pos))
    ensures r.Success? ==> |out| <= |r.value.1| && r.value.1[..|out|] == out
  {
    match l.cat
    case Number => Success((stack, out + [l]))
    case Variable => Success((stack, out + [l]))
    case LeftBracket => Success((stack + [l], out))
    case Function => Success((stack + [l], out))
    case Separator =>
      var (s1, o1) := PopToLeft(stack, out);
      if s1 == [] then Failure(SeparatorOutside(l.text, l.pos)) else Success((s1, o1))
    case RightBracket => CloseBracket(stack, out, l)
    case BinaryOperator => Success(PushOperator(stack, out, l))
    case UnaryOperator => Success(PushOperator(stack, out, l))
    case _ => Success((stack, out))
  }

  /** What one shunting step may do with the tokens it has read: every
      operator is on the stack or the output, together with the `abs` a
      closing bar owes, and an operand goes straight to the end of the
      output, so an operand-free stack stays free of them. */
  predicate Conserves(stack: seq<Lexeme>, out: seq<Lexeme>, l: Lexeme, s2: seq<Lexeme>, o2: seq<Lexeme>) {
    Keeps(stack, out, s2, o2, Operators([l]) + Bars([l]), Operands([l]))
  }

  lemma {:induction false} ShuntKeeps(stack: seq<Lexeme>, out: seq<Lexeme>, l: Lexeme)
    requires Shunt(stack, out, l).Success?
    ensures Conserves(stack, out, l, Shunt(stack, out, l).value.0, Shunt(stack, out, l).value.1)
  {
    match l.cat
    case Number => OperandKeeps(stack, out, l);
    case Variable => OperandKeeps(stack, out, l);
    case LeftBracket => OpenKeeps(stack, out, l);
    case Function => OpenKeeps(stack, out, l);
    case Separator => SeparatorKeeps(stack, out, l);
    case RightBracket => CloseBracketKeeps(stack, out, l);
    case BinaryOperator => PushKeeps(stack, out, l);
    case UnaryOperator => PushKeeps(stack, out, l);
    case _ => IdleKeeps(stack, out, l);
  }

  lemma {:induction false} OperandKeeps(stack: seq<Lexeme>, out: seq<Lexeme>, l: Lexeme)
    requires IsOperand(l)
    ensures Conserves(stack, out, l, stack, out + [l])
  {
    One(l);
    Emit(out, [l]);
  }

  lemma {:induction false} OpenKeeps(stack: seq<Lexeme>, out: seq<Lexeme>, l: Lexeme)
    requires l.cat == LeftBracket || l.cat == Function
    ensures Conserves(stack, out, l, stack + [l], out)
  {
    One(l);
    Emit(stack, [l]);
  }

  lemma {:induction false} IdleKeeps(stack: seq<Lexeme>, out: seq<Lexeme>, l: Lexeme)
    requires !IsOperand(l) && !IsOperator(l) && l.cat != RightBracket
    ensures Conserves(stack, out, l, stack, out)
  {
    One(l);
  }

  /** What pushing an operator moves: the popped operators land on the
      output, the pushed one on the stack. */
  lemma {:induction false} PushKeeps(stack: seq<Lexeme>, out: seq<Lexeme>, cur: Lexeme)
    requires cur.cat == BinaryOperator || cur.cat == UnaryOperator
    ensures Conserves(stack, out, cur, PushOperator(stack, out, cur).0, PushOperator(stack, out, cur).1)
  {
    var r := PushOperator(stack, out, cur);
    Pushed(stack, out, |r.0| - 1, cur, r.0, r.1);
  }

  /** Popping the part of the stack from k up and pushing `cur`. */
  lemma {:induction false} Pushed(stack: seq<Lexeme>, out: seq<Lexeme>, k: nat, cur: Lexeme, s2: seq<Lexeme>, o2: seq<Lexeme>)
    requires cur.cat == BinaryOperator || cur.cat == UnaryOperator
    requires k <= |stack| && s2 == stack[..k] + [cur] && o2 == out + Reverse(stack[k..])
    ensures Conserves(stack, out, cur, s2, o2)
  {
    assert [cur][..0] == [];
    assert Bars([cur]) == multiset{};
    assert Operands([cur]) == [];
    MoveTop(stack, out, k);
    Emit(stack[..k], [cur]);
  }




  /** The parser's loop state: the previous final category, the operator
      stack (top last), the postfix emitted so far and the reclassified
      tokens read so far. */
  datatype State = State(prev: Category, stack: seq<Lexeme>, output: seq<Lexeme>, infix: seq<Lexeme>)

  /** One iteration of the parse loop (expression.cpp:377-525). */
  function Step<F>(st: State, tok: Lexeme, vars: VT.VarTable, funcs: FT.FunctionTable<F>): (r: Result<State, ParseError>)
    ensures r.Success? ==>
      && |r.value.infix| == |st.infix| + 1
      && r.value.infix[..|st.infix|] == st.infix
      && r.value.prev == r.value.infix[|st.infix|].cat
      && Reclassify(tok, st.prev, vars, funcs) == Success(r.value.infix[|st.infix|])
      && CanTransition(st.prev, r.value.prev)
    ensures Reclassify(tok, st.prev, vars, funcs).Success? &&
            !CanTransition(st.prev, Reclassify(tok, st.prev, vars, funcs).value.cat) ==>
              r == Failure(UnexpectedLexeme(tok.text, tok.pos))
    ensures var l := Reclassify(tok, st.prev, vars, funcs);
            l.Success? && CanTransition(st.prev, l.value.cat) && st.prev == Function && l.value.text != "(" ==>
              r == Failure(FunctionWithoutParen(tok.text, tok.pos))
  {
    var l :- Reclassify(tok, st.prev, vars, funcs);
    if !CanTransition(st.prev, l.cat) then Failure(UnexpectedLexeme(l.text, l.pos))
    else if st.prev == Function && l.cat == LeftBracket && l.text != "(" then Failure(FunctionWithoutParen(l.text, l.pos))
    else
      var (stack, out) :- Shunt(st.stack, st.output, l);
      Success(State(l.cat, stack, out, st.infix + [l]))
  }

  /** The parse loop over the remaining tokens. */
  function Run<F>(st: State, toks: seq<Lexeme>, vars: VT.VarTable, funcs: FT.FunctionTable<F>): Result<State, ParseError>
    decreases |toks|
  {
    if toks == [] then Success(st)
    else
      var next :- Step(st, toks[0], vars, funcs);
      Run(next, toks[1..], vars, funcs)
  }

  /** Tokens that are still open at the end of input: brackets and functions. */
  predicate IsOpen(l: Lexeme) {
    l.cat == LeftBracket || l.cat == Function
  }

  /** The index of the topmost open token on the stack, or -1. */
  function TopOpen(stack: seq<Lexeme>): (k: int)
    ensures -1 <= k < |stack|
    ensures k >= 0 ==> IsOpen(stack[k])
    ensures forall j :: k < j < |stack| ==> !IsOpen(stack[j])
  {
    if stack == [] then -1
    else if IsOpen(stack[|stack| - 1]) then |stack| - 1
    else TopOpen(stack[..|stack| - 1])
  }

  /** The final unwinding of the stack (expression.cpp:527-538): the first
      open token met while popping is reported as a missing ')'. */
  function Drain(stack: seq<Lexeme>, out: seq<Lexeme>): (r: Result<seq<Lexeme>, ParseError>)
    ensures TopOpen(stack) == -1 ==> r == Success(out + Reverse(stack))
    ensures TopOpen(stack) >= 0 ==> r == Failure(MissingClose(stack[TopOpen(stack)].pos))
    decreases |stack|
  {
    if stack == [] then
      assert out + Reverse(stack) == out;
      Success(out)
    else
      var n := |stack| - 1;
      if IsOpen(stack[n]) then Failure(MissingClose(stack[n].pos))
      else
        assert Reverse(stack) == [stack[n]] + Reverse(stack[..n]);
        assert out + Reverse(stack) == (out + [stack[n]]) + Reverse(stack[..n]);
        Drain(stack[..n], out + [stack[n]])
  }

  /** The end of parse (expression.cpp:527-545): unclosed brackets are
      reported before a dangling end of expression, which is reported at the
      length of the source. */
  function Finish(st: State, sourceLength: nat): (r: Result<seq<Lexeme>, ParseError>)
    ensures TopOpen(st.stack) >= 0 ==> r == Failure(MissingClose(st.stack[TopOpen(st.stack)].pos))
    ensures TopOpen(st.stack) == -1 && !CanTransition(st.prev, End) ==> r == Failure(UnexpectedEnd(sourceLength))
    ensures r.Success? <==> TopOpen(st.stack) == -1 && CanTransition(st.prev, End)
    ensures r.Success? ==> r.value == st.output + Reverse(st.stack)
  {
    var post :- Drain(st.stack, st.output);
    if !CanTransition(st.prev, End) then Failure(UnexpectedEnd(sourceLength)) else Success(post)
  }

  /** A parsed expression: the reclassified infix tokens and the postfix. */
  datatype Parsed = Parsed(infix: seq<Lexeme>, postfix: seq<Lexeme>)

  /** parse (expression.cpp:372-546) over the tokens of `source`. */
  function Parse<F>(source: string, toks: seq<Lexeme>, vars: VT.VarTable, funcs: FT.FunctionTable<F>): Result<Parsed, ParseError>
  {
    var st :- Run(State(Start, [], [], []), toks, vars, funcs);
    var post :- Finish(st, |source|);
    Success(Parsed(st.infix, post))
  }
}
