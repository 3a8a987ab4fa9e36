/** Reverse Polish sequences: the operand count a sequence leaves on the
    evaluation stack, independently of the values involved. */
module Postfix {
  import opened Wrappers
  import opened Lexemes
  import Lexer
  import VT = VarTables
  import FT = FunctionTables

  /** Replays the stack discipline of the evaluator on depth alone, starting
      with d values on the stack: operands push one value, functions and unary
      operators need one, binary operators need two and leave one. None means
      an operand would be missing, or a token the evaluator cannot replay. */
  function Replay(d: nat, post: seq<Lexeme>): Option<nat>
    decreases |post|
  {
    if post == [] then Some(d)
    else
      var t := post[0];
      match t.cat
      case Number => Replay(d + 1, post[1..])
      case Variable => Replay(d + 1, post[1..])
      case Function => if d >= 1 then Replay(d, post[1..]) else None
      case UnaryOperator => if d >= 1 then Replay(d, post[1..]) else None
      case BinaryOperator => if d >= 2 then Replay(d - 1, post[1..]) else None
      case _ => None
  }

  /** A postfix token the evaluator can apply against the given bindings:
      numerals, bound names, and operator texts it knows. */
  predicate Evaluable<F>(t: Lexeme, vars: VT.VarTable, funcs: FT.FunctionTable<F>) {
    match t.cat
    case Number => Lexer.IsNumeral(t.text)
    case Variable => VT.Bound(vars, t.text)
    case Function => FT.Bound(funcs, t.text)
    case UnaryOperator => t.text == "-" || t.text == "abs"
    case BinaryOperator => t.text == "+" || t.text == "-" || t.text == "*" || t.text == "/" || t.text == "^"
    case _ => false
  }

  /** Every token of the sequence is evaluable. */
  predicate AllEvaluable<F>(s: seq<Lexeme>, vars: VT.VarTable, funcs: FT.FunctionTable<F>) {
    forall i :: 0 <= i < |s| ==> Evaluable(s[i], vars, funcs)
  }

  /** A postfix sequence that evaluates to exactly one value. */
  predicate Complete(post: seq<Lexeme>) {
    Replay(0, post) == Some(1)
  }

  /** Replaying a concatenation replays the second part from where the first
      part left the stack. */
  lemma {:induction false} ReplayAppend(d: nat, a: seq<Lexeme>, b: seq<Lexeme>)
    ensures Replay(d, a + b) == (if Replay(d, a).Some? then Replay(Replay(d, a).value, b) else None)
    decreases |a|
  {
    if a == [] {
      assert a + b == b;
    } else {
      assert (a + b)[0] == a[0];
      assert (a + b)[1..] == a[1..] + b;
      var t := a[0];
      match t.cat
      case Number => ReplayAppend(d + 1, a[1..], b);
      case Variable => ReplayAppend(d + 1, a[1..], b);
      case Function => if d >= 1 { ReplayAppend(d, a[1..], b); }
      case UnaryOperator => if d >= 1 { ReplayAppend(d, a[1..], b); }
      case BinaryOperator => if d >= 2 { ReplayAppend(d - 1, a[1..], b); }
      case _ =>
    }
  }

  /** Replaying a single operator: a binary one takes two values and leaves
      one, a unary one or a function takes one and leaves one. */
  lemma {:induction false} ReplayOperator(d: nat, t: Lexeme)
    requires t.cat == BinaryOperator ==> d >= 2
    requires t.cat == UnaryOperator || t.cat == Function ==> d >= 1
    ensures t.cat == BinaryOperator ==> Replay(d, [t]) == Some(d - 1)
    ensures t.cat == UnaryOperator || t.cat == Function ==> Replay(d, [t]) == Some(d)
  {
    assert [t][1..] == [];
  }

  /** The stack order of a sequence: its last element first. Popping a stack
      onto the output emits the reverse of the popped part. */
  function Reverse<T>(s: seq<T>): (r: seq<T>)
    ensures |r| == |s|
  {
    if s == [] then [] else [s[|s| - 1]] + Reverse(s[..|s| - 1])
  }

  /** Element i of the reverse is element |s| - 1 - i of the original. */
  lemma {:induction false} ReverseIndex<T>(s: seq<T>, i: nat)
    requires i < |s|
    ensures Reverse(s)[i] == s[|s| - 1 - i]
  {
    if i > 0 {
      ReverseIndex(s[..|s| - 1], i - 1);
    }
  }

  /** The number of binary operators in a sequence. */
  function Binaries(s: seq<Lexeme>): nat {
    if s == [] then 0 else Binaries(s[..|s| - 1]) + (if s[|s| - 1].cat == BinaryOperator then 1 else 0)
  }

  lemma {:induction false} BinariesAppend(a: seq<Lexeme>, b: seq<Lexeme>)
    ensures Binaries(a + b) == Binaries(a) + Binaries(b)
    decreases |b|
  {
    if b == [] {
      assert a + b == a;
    } else {
      assert (a + b)[..|a + b| - 1] == a + b[..|b| - 1];
      BinariesAppend(a, b[..|b| - 1]);
    }
  }
  /** Operands push a value of their own; operators apply to values already
      on the stack. Brackets and separators are neither. */
  predicate IsOperand(t: Lexeme) {
    t.cat == Number || t.cat == Variable
  }

  predicate IsOperator(t: Lexeme) {
    t.cat == Function || t.cat == UnaryOperator || t.cat == BinaryOperator
  }

  /** The operands of a sequence, in order. */
  function Operands(s: seq<Lexeme>): seq<Lexeme> {
    if s == [] then [] else Operands(s[..|s| - 1]) + (if IsOperand(s[|s| - 1]) then [s[|s| - 1]] else [])
  }

  /** The operators of a sequence, counted with their positions. */
  function Operators(s: seq<Lexeme>): multiset<Lexeme> {
    if s == [] then multiset{} else Operators(s[..|s| - 1]) + (if IsOperator(s[|s| - 1]) then multiset{s[|s| - 1]} else multiset{})
  }

  lemma {:induction false} OperandsAppend(a: seq<Lexeme>, b: seq<Lexeme>)
    ensures Operands(a + b) == Operands(a) + Operands(b)
    decreases |b|
  {
    if b == [] {
      assert a + b == a;
    } else {
      assert (a + b)[..|a + b| - 1] == a + b[..|b| - 1];
      OperandsAppend(a, b[..|b| - 1]);
    }
  }

  lemma {:induction false} OperatorsAppend(a: seq<Lexeme>, b: seq<Lexeme>)
    ensures Operators(a + b) == Operators(a) + Operators(b)
    decreases |b|
  {
    if b == [] {
      assert a + b == a;
    } else {
      assert (a + b)[..|a + b| - 1] == a + b[..|b| - 1];
      OperatorsAppend(a, b[..|b| - 1]);
    }
  }

  /** Popping a stack keeps its operators, and a stack without operands
      emits none. */
  lemma {:induction false} ReverseKeeps(s: seq<Lexeme>)
    ensures Operators(Reverse(s)) == Operators(s)
    ensures Operands(s) == [] ==> Operands(Reverse(s)) == []
    decreases |s|
  {
    if s != [] {
      var n := |s| - 1;
      ReverseKeeps(s[..n]);
      OperatorsAppend([s[n]], Reverse(s[..n]));
      OperandsAppend([s[n]], Reverse(s[..n]));
      assert [s[n]][..0] == [];
      if Operands(s) == [] {
        assert Operands(s[..n]) == [];
      }
    }
  }

  /** Moving the part of a stack from k up onto the output, in pop order,
      keeps every operator on one side or the other, and emits no operand
      from a stack that holds none. */
  lemma {:induction false} MoveTop(stack: seq<Lexeme>, out: seq<Lexeme>, k: nat)
    requires k <= |stack|
    ensures Operators(stack[..k]) + Operators(out + Reverse(stack[k..])) == Operators(stack) + Operators(out)
    ensures Operands(stack) == [] ==>
      Operands(stack[..k]) == [] && Operands(out + Reverse(stack[k..])) == Operands(out)
  {
    assert stack == stack[..k] + stack[k..];
    OperatorsAppend(stack[..k], stack[k..]);
    OperandsAppend(stack[..k], stack[k..]);
    OperatorsAppend(out, Reverse(stack[k..]));
    OperandsAppend(out, Reverse(stack[k..]));
    ReverseKeeps(stack[k..]);
  }
}
