/** The postfix evaluator of the expression engine
    (libs/lib_expression/expression.cpp:31-134): a value stack driven by the
    postfix tokens, with exact real arithmetic standing in for double. */
module Evaluator {
  import opened Wrappers
  import opened Lexemes
  import opened Postfix
  import Lexer
  import VT = VarTables
  import FT = FunctionTables

  /** A bound function of the function table, over reals. */
  type RealFunction = real -> real

  /** The runtime errors calculate throws, including those of the table
      lookups it calls. */
  datatype EvalError =
    | VariableLookup(varError: VT.VarError)
    | FunctionLookup(funcError: FT.FunctionError)
    | InvalidNumber(text: string)
    | MissingArgument(name: string)
    | MissingUnaryOperand
    | MissingBinaryOperand
    | DivisionByZero
    | UnknownBinaryOperator(text: string)
    | UnexpectedToken(text: string)
    | EmptyResult
    | ExtraOperands

  // ----- numerals -----

  function DigitValue(c: char): nat
    requires IsDigit(c)
  {
    (c as int - '0' as int) as nat
  }

  predicate AllDigits(s: string) {
    forall k :: 0 <= k < |s| ==> IsDigit(s[k])
  }

  /** The natural number a digit string denotes (0 for the empty string). */
  function DigitsValue(s: string): nat
    requires AllDigits(s)
  {
    if s == [] then 0 else DigitsValue(s[..|s| - 1]) * 10 + DigitValue(s[|s| - 1])
  }

  function Pow10(n: nat): (r: nat)
    ensures r >= 1
  {
    if n == 0 then 1 else 10 * Pow10(n - 1)
  }

  /** The index of the decimal point of a numeral, or its length. */
  function PointIndex(t: string): (p: nat)
    ensures p <= |t|
    ensures p < |t| ==> t[p] == '.'
    ensures forall k :: 0 <= k < p ==> t[k] != '.'
  {
    if t == [] then 0
    else if t[0] == '.' then 0
    else 1 + PointIndex(t[1..])
  }

  /** The digits after the decimal point (empty when there is none). */
  function Fraction(t: string): string {
    var p := PointIndex(t);
    if p < |t| then t[p + 1..] else []
  }

  /** std::stod on a numeral of the lexer: the exact decimal value. */
  function DecimalValue(t: string): (r: real)
    requires Lexer.IsNumeral(t)
    ensures r >= 0.0
  {
    var p := PointIndex(t);
    assert AllDigits(t[..p]);
    assert AllDigits(Fraction(t));
    DigitsValue(t[..p]) as real + DigitsValue(Fraction(t)) as real / Pow10(|Fraction(t)|) as real
  }

  /** A digit string split anywhere: the left part is shifted past the right. */
  lemma {:induction false} DigitsAppend(a: string, b: string)
    requires AllDigits(a) && AllDigits(b)
    ensures AllDigits(a + b)
    ensures DigitsValue(a + b) == DigitsValue(a) * Pow10(|b|) + DigitsValue(b)
    decreases |b|
  {
    assert AllDigits(a + b);
    if b == [] {
      assert a + b == a;
    } else {
      var n := |b| - 1;
      assert (a + b)[..|a + b| - 1] == a + b[..n];
      assert AllDigits(b[..n]);
      DigitsAppend(a, b[..n]);
      var x, y, p, d := DigitsValue(a), DigitsValue(b[..n]), Pow10(n), DigitValue(b[n]);
      assert DigitsValue(a + b) == (x * p + y) * 10 + d;
      assert DigitsValue(b) == y * 10 + d;
      assert Pow10(|b|) == 10 * p;
      ShiftDigit(x, y, p, d);
    }
  }

  lemma {:induction false} ShiftDigit(x: int, y: int, p: int, d: int)
    ensures (x * p + y) * 10 + d == x * (10 * p) + (y * 10 + d)
  {
  }

  /** The value of a numeral is the integer its digits denote, scaled down by
      one power of ten per digit after the point. */
  lemma {:induction false} NumeralScaled(t: string, p: nat, f: string)
    requires Lexer.IsNumeral(t)
    requires p == PointIndex(t) && f == Fraction(t)
    ensures AllDigits(t[..p] + f)
    ensures DecimalValue(t) == DigitsValue(t[..p] + f) as real / Pow10(|f|) as real
  {
    assert AllDigits(t[..p]);
    assert AllDigits(f);
    DigitsAppend(t[..p], f);
    var a, b, n := DigitsValue(t[..p]), DigitsValue(f), Pow10(|f|);
    ScaledValue(DecimalValue(t), a, b, n, DigitsValue(t[..p] + f));
  }

  /** A value of the form a + b / n is the natural a * n + b over n. */
  lemma {:induction false} ScaledValue(d: real, a: nat, b: nat, n: nat, w: nat)
    requires n >= 1
    requires d == a as real + b as real / n as real
    requires w == a * n + b
    ensures d == w as real / n as real
  {
    var nr := n as real;
    assert (a as real + b as real / nr) * nr == a as real * nr + b as real;
    assert (a * n) as real == a as real * nr;
  }

  // ----- the evaluation loop -----

  /** A binary operator applied to the two popped values
      (expression.cpp:93-110); `pow` stands for std::pow. */
  function ApplyBinary(op: string, left: real, right: real, pow: (real, real) -> real): (r: Result<real, EvalError>)
    ensures r.Failure? <==> (op == "/" && right == 0.0)
                            || (op != "+" && op != "-" && op != "*" && op != "/" && op != "^")
    ensures op == "/" && right == 0.0 ==> r == Failure(DivisionByZero)
    ensures r.Success? && op == "/" ==> r.value * right == left
    ensures r.Success? && op == "+" ==> r.value - right == left
    ensures r.Success? && op == "-" ==> r.value + right == left
    ensures op == "*" ==> r == Success(left * right)
    ensures op == "^" ==> r == Success(pow(left, right))
  {
    if op == "+" then Success(left + right)
    else if op == "-" then Success(left - right)
    else if op == "*" then Success(left * right)
    else if op == "/" then (if right == 0.0 then Failure(DivisionByZero) else Success(left / right))
    else if op == "^" then Success(pow(left, right))
    else Failure(UnknownBinaryOperator(op))
  }

  /** A unary operator applied to the popped value: negation, absolute value,
      and the identity for any other text (expression.cpp:66-76). */
  function ApplyUnary(op: string, v: real): (r: real)
    ensures op == "-" ==> r + v == 0.0
    ensures op == "abs" ==> r >= 0.0 && (r == v || r == -v)
    ensures op != "-" && op != "abs" ==> r == v
  {
    if op == "-" then -v
    else if op == "abs" then (if v < 0.0 then -v else v)
    else v
  }

  /** One token of the loop of calculate (expression.cpp:36-117): the value
      stack (top last) after the token, or the error it throws. */
  function EvalToken(stack: seq<real>, t: Lexeme, vars: VT.VarTable, funcs: FT.FunctionTable<RealFunction>,
                     pow: (real, real) -> real): (r: Result<seq<real>, EvalError>)
    ensures r.Success? ==> |r.value| <= |stack| + 1
    ensures r.Success? && (t.cat == Number || t.cat == Variable) ==>
              |r.value| == |stack| + 1 && r.value[..|stack|] == stack
    ensures r.Success? && (t.cat == Function || t.cat == UnaryOperator) ==>
              |stack| >= 1 && |r.value| == |stack| && r.value[..|stack| - 1] == stack[..|stack| - 1]
    ensures r.Success? && t.cat == BinaryOperator ==>
              |stack| >= 2 && |r.value| == |stack| - 1 && r.value[..|stack| - 2] == stack[..|stack| - 2]
    ensures t.cat == Variable ==> (r.Failure? <==> !VT.Bound(vars, t.text))
    ensures |stack| == 0 && t.cat == Function ==> r == Failure(MissingArgument(t.text))
    ensures |stack| == 0 && t.cat == UnaryOperator ==> r == Failure(MissingUnaryOperand)
    ensures |stack| < 2 && t.cat == BinaryOperator ==> r == Failure(MissingBinaryOperand)
    ensures t.cat !in {Number, Variable, Function, UnaryOperator, BinaryOperator} ==> r == Failure(UnexpectedToken(t.text))
    ensures r.Success? && t.cat == Number ==>
              Lexer.IsNumeral(t.text) && |r.value| == |stack| + 1 && r.value[|stack|] == DecimalValue(t.text)
    ensures r.Success? && t.cat == Variable ==>
              |r.value| == |stack| + 1 && VT.Get(vars, t.text) == Success(r.value[|stack|])
    ensures r.Success? && t.cat == Function ==>
              |stack| >= 1 && |r.value| == |stack| && FT.Get(funcs, t.text).Success?
              && r.value[|stack| - 1] == FT.Get(funcs, t.text).value(stack[|stack| - 1])
    ensures r.Success? && t.cat == UnaryOperator ==>
              |stack| >= 1 && |r.value| == |stack| && r.value[|stack| - 1] == ApplyUnary(t.text, stack[|stack| - 1])
    ensures r.Success? && t.cat == BinaryOperator ==>
              |stack| >= 2 && |r.value| == |stack| - 1
              && ApplyBinary(t.text, stack[|stack| - 2], stack[|stack| - 1], pow) == Success(r.value[|stack| - 2])
  {
    var n := |stack|;
    match t.cat
    case Number =>
      if Lexer.IsNumeral(t.text) then Success(stack + [DecimalValue(t.text)])
      else Failure(InvalidNumber(t.text))
    case Variable =>
      (match VT.Get(vars, t.text)
       case Success(v) => Success(stack + [v])
       case Failure(e) => Failure(VariableLookup(e)))
    case Function =>
      if n == 0 then Failure(MissingArgument(t.text))
      else
        (match FT.Get(funcs, t.text)
         case Success(f) => Success(stack[..n - 1] + [f(stack[n - 1])])
         case Failure(e) => Failure(FunctionLookup(e)))
    case UnaryOperator =>
      if n == 0 then Failure(MissingUnaryOperand)
      else Success(stack[..n - 1] + [ApplyUnary(t.text, stack[n - 1])])
    case BinaryOperator =>
      if n < 2 then Failure(MissingBinaryOperand)
      else
        var v :- ApplyBinary(t.text, stack[n - 2], stack[n - 1], pow);
        Success(stack[..n - 2] + [v])
    case _ => Failure(UnexpectedToken(t.text))
  }

  /** The loop of calculate over the remaining postfix tokens. Each token
      pushes at most one value, so the stack never outgrows the capacity
      calculate gives it, the length of the postfix sequence. */
  function Eval(stack: seq<real>, post: seq<Lexeme>, vars: VT.VarTable, funcs: FT.FunctionTable<RealFunction>,
                pow: (real, real) -> real): (r: Result<seq<real>, EvalError>)
    ensures r.Success? ==> |r.value| <= |stack| + |post|
    decreases |post|
  {
    if post == [] then Success(stack)
    else
      var next :- EvalToken(stack, post[0], vars, funcs, pow);
      Eval(next, post[1..], vars, funcs, pow)
  }

  /** calculate (expression.cpp:31-134): exactly one value must remain. */
  function Calculate(post: seq<Lexeme>, vars: VT.VarTable, funcs: FT.FunctionTable<RealFunction>,
                     pow: (real, real) -> real): (r: Result<real, EvalError>)
    ensures var e := Eval([], post, vars, funcs, pow);
      && (e.Failure? ==> r == Failure(e.error))
      && (e.Success? && |e.value| == 0 ==> r == Failure(EmptyResult))
      && (e.Success? && |e.value| > 1 ==> r == Failure(ExtraOperands))
      && (r.Success? <==> e.Success? && |e.value| == 1)
      && (r.Success? ==> e.value == [r.value])
  {
    var final :- Eval([], post, vars, funcs, pow);
    if |final| == 0 then Failure(EmptyResult)
    else if |final| > 1 then Failure(ExtraOperands)
    else Success(final[0])
  }

  /** Every run of the loop is its run over the first k tokens followed by
      its run over the rest, and after k tokens the stack holds at most k
      more values than it started with. From an empty stack, no intermediate
      stack exceeds the length of the postfix sequence, which is the capacity
      calculate reserves (expression.cpp:33). */
  lemma {:induction false} EvalSplits(stack: seq<real>, post: seq<Lexeme>, k: nat, vars: VT.VarTable,
                                      funcs: FT.FunctionTable<RealFunction>, pow: (real, real) -> real)
    requires k <= |post|
    ensures Eval(stack, post, vars, funcs, pow) ==
      (match Eval(stack, post[..k], vars, funcs, pow)
       case Failure(e) => Failure(e)
       case Success(mid) => Eval(mid, post[k..], vars, funcs, pow))
    ensures Eval(stack, post[..k], vars, funcs, pow).Success? ==>
      |Eval(stack, post[..k], vars, funcs, pow).value| <= |stack| + k
    decreases k
  {
    if k == 0 {
      assert post[..0] == [] && post[0..] == post;
    } else {
      assert post[..k][0] == post[0] && post[..k][1..] == post[1..][..k - 1];
      assert post[1..][k - 1..] == post[k..];
      EvalSplits(EvalTokenOr(stack, post[0], vars, funcs, pow), post[1..], k - 1, vars, funcs, pow);
    }
  }

  /** The stack after one token, or the old one when the token fails. */
  function EvalTokenOr(stack: seq<real>, t: Lexeme, vars: VT.VarTable, funcs: FT.FunctionTable<RealFunction>,
                       pow: (real, real) -> real): seq<real>
  {
    match EvalToken(stack, t, vars, funcs, pow)
    case Success(next) => next
    case Failure(_) => stack
  }

  // ----- the evaluator follows the depth replay -----

  /** A token the depth replay accepts, evaluable against the tables, either
      evaluates with the depth the replay predicts or divides by zero. */
  lemma {:induction false} EvalTokenFollowsReplay(stack: seq<real>, t: Lexeme, vars: VT.VarTable, funcs: FT.FunctionTable<RealFunction>,
                               pow: (real, real) -> real)
    requires Replay(|stack|, [t]).Some?
    requires Evaluable(t, vars, funcs)
    ensures var r := EvalToken(stack, t, vars, funcs, pow);
      (r.Success? && |r.value| == Replay(|stack|, [t]).value) || r == Failure(DivisionByZero)
  {
    assert [t][1..] == [];
  }

  /** The evaluator never reports a missing operand, an unknown name or
      operator, or an unexpected token on a postfix sequence the depth replay
      accepts and whose tokens are evaluable: it ends with the predicted
      number of values, or divides by zero. */
  lemma {:induction false} EvalFollowsReplay(stack: seq<real>, post: seq<Lexeme>, vars: VT.VarTable,
                                             funcs: FT.FunctionTable<RealFunction>, pow: (real, real) -> real)
    requires Replay(|stack|, post).Some?
    requires AllEvaluable(post, vars, funcs)
    ensures var r := Eval(stack, post, vars, funcs, pow);
      (r.Success? && |r.value| == Replay(|stack|, post).value) || r == Failure(DivisionByZero)
    decreases |post|
  {
    if post != [] {
      var t := post[0];
      ReplayAppend(|stack|, [t], post[1..]);
      assert [t] + post[1..] == post;
      EvalTokenFollowsReplay(stack, t, vars, funcs, pow);
      var r := EvalToken(stack, t, vars, funcs, pow);
      if r.Success? {
        EvalFollowsReplay(r.value, post[1..], vars, funcs, pow);
      }
    }
  }

  /** A complete, evaluable postfix sequence evaluates to a single value
      unless it divides by zero. */
  lemma {:induction false} CompleteCalculates(post: seq<Lexeme>, vars: VT.VarTable, funcs: FT.FunctionTable<RealFunction>,
                           pow: (real, real) -> real)
    requires Complete(post)
    requires AllEvaluable(post, vars, funcs)
    ensures Calculate(post, vars, funcs, pow).Success? || Calculate(post, vars, funcs, pow) == Failure(DivisionByZero)
  {
    EvalFollowsReplay([], post, vars, funcs, pow);
  }
}
