/** The expressions of tests/test_expression.cpp:27-68, constructed over the
    tables of its fixture (tests/test_expression.cpp:10-25): the tokens the
    lexer reads from each, the postfix the parser makes of them, and its
    rendering. The tokens are written out below with their offsets. */
module ParseExamples {
  import opened Wrappers
  import opened Lexemes
  import opened Postfix
  import opened Parser
  import Render
  import Lexer
  import Evaluator
  import Expressions
  import Strings
  import VT = VarTables
  import FT = FunctionTables

  /** The variables of the fixture: x = 10, y = 20, zero = 0. */
  const Vars: VT.VarTable := [VT.Variable("x", 10.0), VT.Variable("y", 20.0), VT.Variable("zero", 0.0)]

  /** The functions of the fixture: sin and cos, whatever they compute. */
  function Funcs<F>(sin: F, cos: F): FT.FunctionTable<F> {
    [FT.Entry("sin", sin), FT.Entry("cos", cos)]
  }

  /** The names the expressions use: x and y are variables, sin a function. */
  lemma {:induction false} Names<F>(sin: F, cos: F)
    ensures !FT.Contains(Funcs(sin, cos), "x") && VT.Contains(Vars, "x")
    ensures !FT.Contains(Funcs(sin, cos), "y") && VT.Contains(Vars, "y")
    ensures FT.Contains(Funcs(sin, cos), "sin")
  {
    assert Funcs(sin, cos)[0].name == "sin";
    assert VT.Bound(Vars, "x") && VT.Bound(Vars, "y") by {
      assert Vars[0].name == "x" && Vars[1].name == "y";
    }
  }

  // ----- the lexer's reading of a source -----

  /** Only spaces from i up to j. */
  predicate Blank(s: string, i: nat, j: nat) {
    i <= j <= |s| && forall k :: i <= k < j ==> s[k] == ' '
  }

  /** ts is what the lexer reads from offset i on: each token follows a run
      of spaces and is the token read at its own position. */
  predicate Scans(s: string, i: nat, ts: seq<Lexeme>)
    decreases |ts|
  {
    if ts == [] then Blank(s, i, |s|)
    else
      var p := ts[0].pos;
      && Blank(s, i, p) && p < |s| && IsKnownStart(s[p]) && s[p] != ' '
      && Lexer.NextToken(s, p).0 == ts[0]
      && Scans(s, Lexer.NextToken(s, p).1, ts[1..])
  }

  /** A scan is what the lexer returns. */
  lemma {:induction false} ScansLex(s: string, i: nat, ts: seq<Lexeme>)
    requires Scans(s, i, ts)
    ensures Lexer.Lex(s, i) == Success(ts)
    decreases |ts|, |s| - i
  {
    if ts == [] {
      BlankLex(s, i, ts);
    } else if i < ts[0].pos {
      ScansSpace(s, i, ts);
      ScansLex(s, i + 1, ts);
      SpaceLex(s, i, ts);
    } else {
      var j := Lexer.NextToken(s, i).1;
      ScansLex(s, j, ts[1..]);
      TokenLex(s, i, ts);
    }
  }

  lemma {:induction false} ScansSpace(s: string, i: nat, ts: seq<Lexeme>)
    requires Scans(s, i, ts) && ts != [] && i < ts[0].pos
    ensures i < |s| && s[i] == ' ' && Scans(s, i + 1, ts)
  {
  }

  /** A space is skipped. */
  lemma {:induction false} SpaceLex(s: string, i: nat, ts: seq<Lexeme>)
    requires i < |s| && s[i] == ' ' && Lexer.Lex(s, i + 1) == Success(ts)
    ensures Lexer.Lex(s, i) == Success(ts)
  {
  }

  /** A token read at i is followed by the tokens from its end on. */
  lemma {:induction false} TokenLex(s: string, i: nat, ts: seq<Lexeme>)
    requires ts != [] && i == ts[0].pos && i < |s| && IsKnownStart(s[i]) && s[i] != ' '
    requires Lexer.NextToken(s, i).0 == ts[0]
    requires Lexer.Lex(s, Lexer.NextToken(s, i).1) == Success(ts[1..])
    ensures Lexer.Lex(s, i) == Success(ts)
  {
    assert [ts[0]] + ts[1..] == ts;
  }

  /** Trailing spaces read as nothing. */
  lemma {:induction false} BlankLex(s: string, i: nat, ts: seq<Lexeme>)
    requires ts == [] && Blank(s, i, |s|)
    ensures Lexer.Lex(s, i) == Success(ts)
    decreases |s| - i
  {
    if i < |s| {
      BlankLex(s, i + 1, ts);
    }
  }

  /** A token read at its position after spaces from i, then what is read
      after it. */
  lemma {:induction false} ScansCons(s: string, i: nat, t: Lexeme, j: nat, rest: seq<Lexeme>, ts: seq<Lexeme>)
    requires ts == [t] + rest && Blank(s, i, t.pos) && t.pos < |s| && IsKnownStart(s[t.pos]) && s[t.pos] != ' '
    requires Lexer.NextToken(s, t.pos) == (t, j) && Scans(s, j, rest)
    ensures Scans(s, i, ts)
  {
    assert ts[0] == t && ts[1..] == rest;
  }

  /** A bracket or an operator is a token of one character. */
  lemma {:induction false} NextSingle(s: string, i: nat, cat: Category)
    requires i < |s| && cat in {LeftBracket, RightBracket, Operator}
    requires cat == LeftBracket ==> IsOpenBracket(s[i])
    requires cat == RightBracket ==> IsCloseBracket(s[i])
    requires cat == Operator ==> IsOperatorChar(s[i])
    ensures Lexer.NextToken(s, i) == (Lexeme(cat, s[i..i + 1], i), i + 1)
  {
    assert s[i..i + 1] == [s[i]];
  }

  /** A run of digits without a point is a numeral. */
  lemma {:induction false} NextNumber(s: string, i: nat, j: nat)
    requires i < j <= |s| && IsDigit(s[i])
    requires forall k :: i <= k < j ==> IsDigit(s[k])
    requires j < |s| ==> !IsDigit(s[j]) && s[j] != '.'
    ensures Lexer.NextToken(s, i) == (Lexeme(Number, s[i..j], i), j)
  {
    DigitsEnd(s, i, j);
  }

  lemma {:induction false} DigitsEnd(s: string, i: nat, j: nat)
    requires i <= j <= |s|
    requires forall k :: i <= k < j ==> IsDigit(s[k])
    requires j < |s| ==> !IsDigit(s[j]) && s[j] != '.'
    ensures Lexer.NumberEnd(s, i, false) == j
    decreases j - i
  {
    if i < j {
      DigitsEnd(s, i + 1, j);
    }
  }

  /** A letter and the identifier characters after it are an identifier. */
  lemma {:induction false} NextIdent(s: string, i: nat, j: nat)
    requires i < j <= |s| && IsLetter(s[i])
    requires forall k :: i <= k < j ==> IsIdentChar(s[k])
    requires j < |s| ==> !IsIdentChar(s[j])
    ensures Lexer.NextToken(s, i) == (Lexeme(Identifier, s[i..j], i), j)
  {
    IdentRun(s, i, j);
  }

  lemma {:induction false} IdentRun(s: string, i: nat, j: nat)
    requires i <= j <= |s|
    requires forall k :: i <= k < j ==> IsIdentChar(s[k])
    requires j < |s| ==> !IsIdentChar(s[j])
    ensures Lexer.IdentEnd(s, i) == j
    decreases j - i
  {
    if i < j {
      IdentRun(s, i + 1, j);
    }
  }

  /** A source that lexes and parses is constructed with that infix and
      postfix. */
  lemma {:induction false} Built(source: string, toks: seq<Lexeme>, vars: VT.VarTable,
                                 funcs: FT.FunctionTable<Evaluator.RealFunction>, infix: seq<Lexeme>, post: seq<Lexeme>)
    requires Lexer.Tokenize(source) == Success(toks)
    requires Parse(source, toks, vars, funcs) == Success(Parsed(infix, post))
    ensures Expressions.Build(source, vars, funcs) == Success(Expressions.Expression(source, infix, post))
  {
  }

  // ----- single moves of the shunting-yard loop -----

  /** A step over a token that reclassifies to `l`, may follow the previous
      category, and shunts to `stack` and `out`. */
  lemma {:induction false} StepTo<F>(st: State, tok: Lexeme, l: Lexeme, vars: VT.VarTable, funcs: FT.FunctionTable<F>,
                                     stack: seq<Lexeme>, out: seq<Lexeme>)
    requires Reclassify(tok, st.prev, vars, funcs) == Success(l)
    requires CanTransition(st.prev, l.cat) && (st.prev == Function ==> l.text == "(")
    requires Shunt(st.stack, st.output, l) == Success((stack, out))
    ensures Step(st, tok, vars, funcs) == Success(State(l.cat, stack, out, st.infix + [l]))
  {
  }

  /** An operand goes straight to the output. */
  lemma {:induction false} ShuntOperand(stack: seq<Lexeme>, out: seq<Lexeme>, l: Lexeme)
    requires IsOperand(l)
    ensures Shunt(stack, out, l) == Success((stack, out + [l]))
  {
  }

  /** An opening bracket or a function name is pushed. */
  lemma {:induction false} ShuntOpen(stack: seq<Lexeme>, out: seq<Lexeme>, l: Lexeme)
    requires l.cat == LeftBracket || l.cat == Function
    ensures Shunt(stack, out, l) == Success((stack + [l], out))
  {
  }

  /** An operator that pops nothing is pushed. */
  lemma {:induction false} ShuntPush(stack: seq<Lexeme>, out: seq<Lexeme>, l: Lexeme)
    requires l.cat == BinaryOperator || l.cat == UnaryOperator
    requires stack == [] || !Pops(stack[|stack| - 1], l)
    ensures Shunt(stack, out, l) == Success((stack + [l], out))
  {
  }

  /** An operator that pops the only operator on the stack takes its place. */
  lemma {:induction false} ShuntPopPush(top: Lexeme, out: seq<Lexeme>, l: Lexeme)
    requires l.cat == BinaryOperator || l.cat == UnaryOperator
    requires Pops(top, l)
    ensures Shunt([top], out, l) == Success(([l], out + [top]))
  {
    PopOnly(top, out, l);
    PushEmpty(out + [top], l);
    ShuntOperator([top], out, l);
  }

  /** An operator is handed to the pop-and-push rule. */
  lemma {:induction false} ShuntOperator(stack: seq<Lexeme>, out: seq<Lexeme>, l: Lexeme)
    requires l.cat == BinaryOperator || l.cat == UnaryOperator
    ensures Shunt(stack, out, l) == Success(PushOperator(stack, out, l))
  {
  }

  lemma {:induction false} PopOnly(top: Lexeme, out: seq<Lexeme>, l: Lexeme)
    requires Pops(top, l)
    ensures PushOperator([top], out, l) == PushOperator([], out + [top], l)
  {
    assert [top][..0] == [];
  }

  lemma {:induction false} PushEmpty(out: seq<Lexeme>, l: Lexeme)
    ensures PushOperator([], out, l) == ([l], out)
  {
    assert [] + [l] == [l];
  }

  /** A closing bracket over an opening bracket and one operator emits the
      operator and empties the stack. */
  lemma {:induction false} CloseOver(open: Lexeme, op: Lexeme, out: seq<Lexeme>, l: Lexeme)
    requires open.cat == LeftBracket && op.cat != LeftBracket && l.cat == RightBracket
    requires IsMatchingPair(Head(open.text), Head(l.text)) && Head(l.text) != '|'
    ensures Shunt([open, op], out, l) == Success(([], out + [op]))
  {
    assert [open, op][..1] == [open];
    assert TopLeft([open, op]) == 0;
    assert [open, op][1..] == [op];
    assert Reverse([op]) == [op];
    assert [open, op][..0] == [];
  }

  /** A closing bracket over a function call's bracket emits the function and
      empties the stack. */
  lemma {:induction false} CloseCall(fn: Lexeme, open: Lexeme, out: seq<Lexeme>, l: Lexeme)
    requires fn.cat == Function && open.cat == LeftBracket && l.cat == RightBracket
    requires IsMatchingPair(Head(open.text), Head(l.text)) && Head(l.text) != '|'
    ensures Shunt([fn, open], out, l) == Success(([], out + [fn]))
  {
    assert TopLeft([fn, open]) == 1;
    assert [fn, open][2..] == [];
    assert [fn, open][..0] == [];
    assert out + Reverse([]) + [] == out;
  }

  /** A step over an operand. */
  lemma {:induction false} StepOperand<F>(prev: Category, stack: seq<Lexeme>, out: seq<Lexeme>, infix: seq<Lexeme>,
                                          tok: Lexeme, l: Lexeme, vars: VT.VarTable, funcs: FT.FunctionTable<F>)
    requires Reclassify(tok, prev, vars, funcs) == Success(l)
    requires CanTransition(prev, l.cat) && prev != Function && IsOperand(l)
    ensures Step(State(prev, stack, out, infix), tok, vars, funcs) == Success(State(l.cat, stack, out + [l], infix + [l]))
  {
    ShuntOperand(stack, out, l);
    StepTo(State(prev, stack, out, infix), tok, l, vars, funcs, stack, out + [l]);
  }

  /** A step over an opening bracket or a function name. */
  lemma {:induction false} StepOpen<F>(prev: Category, stack: seq<Lexeme>, out: seq<Lexeme>, infix: seq<Lexeme>,
                                       tok: Lexeme, l: Lexeme, vars: VT.VarTable, funcs: FT.FunctionTable<F>)
    requires Reclassify(tok, prev, vars, funcs) == Success(l)
    requires CanTransition(prev, l.cat) && (prev == Function ==> l.text == "(")
    requires l.cat == LeftBracket || l.cat == Function
    ensures Step(State(prev, stack, out, infix), tok, vars, funcs) == Success(State(l.cat, stack + [l], out, infix + [l]))
  {
    ShuntOpen(stack, out, l);
    StepTo(State(prev, stack, out, infix), tok, l, vars, funcs, stack + [l], out);
  }

  /** A step over an operator read with an empty stack. */
  lemma {:induction false} StepPushEmpty<F>(prev: Category, out: seq<Lexeme>, infix: seq<Lexeme>,
                                            tok: Lexeme, l: Lexeme, vars: VT.VarTable, funcs: FT.FunctionTable<F>)
    requires Reclassify(tok, prev, vars, funcs) == Success(l)
    requires CanTransition(prev, l.cat) && prev != Function
    requires l.cat == BinaryOperator || l.cat == UnaryOperator
    ensures Step(State(prev, [], out, infix), tok, vars, funcs) == Success(State(l.cat, [l], out, infix + [l]))
  {
    PushEmpty(out, l);
    StepPushed(State(prev, [], out, infix), tok, l, vars, funcs);
  }

  /** A step over an operator, as the shunting of `PushOperator`. */
  lemma {:induction false} StepPushed<F>(st: State, tok: Lexeme, l: Lexeme, vars: VT.VarTable, funcs: FT.FunctionTable<F>)
    requires Reclassify(tok, st.prev, vars, funcs) == Success(l)
    requires CanTransition(st.prev, l.cat) && st.prev != Function
    requires l.cat == BinaryOperator || l.cat == UnaryOperator
    ensures Step(st, tok, vars, funcs)
         == Success(State(l.cat, PushOperator(st.stack, st.output, l).0, PushOperator(st.stack, st.output, l).1, st.infix + [l]))
  {
    var p := PushOperator(st.stack, st.output, l);
    assert Shunt(st.stack, st.output, l) == Success(p);
    StepTo(st, tok, l, vars, funcs, p.0, p.1);
  }

  /** A step over an operator that the top of the stack does not pop. */
  lemma {:induction false} StepPush<F>(prev: Category, stack: seq<Lexeme>, out: seq<Lexeme>, infix: seq<Lexeme>,
                                       tok: Lexeme, l: Lexeme, vars: VT.VarTable, funcs: FT.FunctionTable<F>)
    requires Reclassify(tok, prev, vars, funcs) == Success(l)
    requires CanTransition(prev, l.cat) && prev != Function
    requires l.cat == BinaryOperator || l.cat == UnaryOperator
    requires stack != [] && !Pops(stack[|stack| - 1], l)
    ensures Step(State(prev, stack, out, infix), tok, vars, funcs) == Success(State(l.cat, stack + [l], out, infix + [l]))
  {
    ShuntPush(stack, out, l);
    StepTo(State(prev, stack, out, infix), tok, l, vars, funcs, stack + [l], out);
  }

  /** A step over an operator that pops the only operator on the stack. */
  lemma {:induction false} StepPopPush<F>(prev: Category, top: Lexeme, out: seq<Lexeme>, infix: seq<Lexeme>,
                                          tok: Lexeme, l: Lexeme, vars: VT.VarTable, funcs: FT.FunctionTable<F>)
    requires Reclassify(tok, prev, vars, funcs) == Success(l)
    requires CanTransition(prev, l.cat) && prev != Function
    requires (l.cat == BinaryOperator || l.cat == UnaryOperator) && Pops(top, l)
    ensures Step(State(prev, [top], out, infix), tok, vars, funcs) == Success(State(l.cat, [l], out + [top], infix + [l]))
  {
    ShuntPopPush(top, out, l);
    StepTo(State(prev, [top], out, infix), tok, l, vars, funcs, [l], out + [top]);
  }

  /** A step over a closing bracket above an opening bracket and one operator. */
  lemma {:induction false} StepCloseOver<F>(prev: Category, open: Lexeme, op: Lexeme, out: seq<Lexeme>, infix: seq<Lexeme>,
                                            l: Lexeme, vars: VT.VarTable, funcs: FT.FunctionTable<F>)
    requires CanTransition(prev, RightBracket) && prev != Function
    requires open.cat == LeftBracket && op.cat != LeftBracket && l.cat == RightBracket
    requires IsMatchingPair(Head(open.text), Head(l.text)) && Head(l.text) != '|'
    ensures Step(State(prev, [open, op], out, infix), l, vars, funcs) == Success(State(RightBracket, [], out + [op], infix + [l]))
  {
    CloseOver(open, op, out, l);
    StepTo(State(prev, [open, op], out, infix), l, l, vars, funcs, [], out + [op]);
  }

  /** A step over the closing bracket of a function call. */
  lemma {:induction false} StepCloseCall<F>(prev: Category, fn: Lexeme, open: Lexeme, out: seq<Lexeme>, infix: seq<Lexeme>,
                                            l: Lexeme, vars: VT.VarTable, funcs: FT.FunctionTable<F>)
    requires CanTransition(prev, RightBracket) && prev != Function
    requires fn.cat == Function && open.cat == LeftBracket && l.cat == RightBracket
    requires IsMatchingPair(Head(open.text), Head(l.text)) && Head(l.text) != '|'
    ensures Step(State(prev, [fn, open], out, infix), l, vars, funcs) == Success(State(RightBracket, [], out + [fn], infix + [l]))
  {
    CloseCall(fn, open, out, l);
    StepTo(State(prev, [fn, open], out, infix), l, l, vars, funcs, [], out + [fn]);
  }

  /** The parse loop takes the first token and goes on with the rest. */
  lemma {:induction false} RunFirst<F>(st: State, tok: Lexeme, rest: seq<Lexeme>, next: State,
                                       vars: VT.VarTable, funcs: FT.FunctionTable<F>)
    requires Step(st, tok, vars, funcs) == Success(next)
    ensures Run(st, [tok] + rest, vars, funcs) == Run(next, rest, vars, funcs)
  {
    assert ([tok] + rest)[0] == tok && ([tok] + rest)[1..] == rest;
  }

  /** The parse loop over three tokens, each taking it to the next state. */
  lemma {:induction false} Run3<F>(s0: State, s1: State, s2: State, s3: State, t0: Lexeme, t1: Lexeme, t2: Lexeme, vars: VT.VarTable, funcs: FT.FunctionTable<F>)
    requires Step(s0, t0, vars, funcs) == Success(s1)
    requires Step(s1, t1, vars, funcs) == Success(s2)
    requires Step(s2, t2, vars, funcs) == Success(s3)
    ensures Run(s0, [t0, t1, t2], vars, funcs) == Success(s3)
  {
    RunFirst(s2, t2, [], s3, vars, funcs);
    RunFirst(s1, t1, [t2], s2, vars, funcs);
    RunFirst(s0, t0, [t1, t2], s1, vars, funcs);
  }

  /** The same over four to seven tokens. */
  lemma {:induction false} Run4<F>(s0: State, s1: State, s2: State, s3: State, s4: State, t0: Lexeme, t1: Lexeme, t2: Lexeme, t3: Lexeme, vars: VT.VarTable, funcs: FT.FunctionTable<F>)
    requires Step(s0, t0, vars, funcs) == Success(s1)
    requires Step(s1, t1, vars, funcs) == Success(s2)
    requires Step(s2, t2, vars, funcs) == Success(s3)
    requires Step(s3, t3, vars, funcs) == Success(s4)
    ensures Run(s0, [t0, t1, t2, t3], vars, funcs) == Success(s4)
  {
    Run3(s1, s2, s3, s4, t1, t2, t3, vars, funcs);
    RunFirst(s0, t0, [t1, t2, t3], s1, vars, funcs);
  }

  lemma {:induction false} Run5<F>(s0: State, s1: State, s2: State, s3: State, s4: State, s5: State, t0: Lexeme, t1: Lexeme, t2: Lexeme, t3: Lexeme, t4: Lexeme, vars: VT.VarTable, funcs: FT.FunctionTable<F>)
    requires Step(s0, t0, vars, funcs) == Success(s1)
    requires Step(s1, t1, vars, funcs) == Success(s2)
    requires Step(s2, t2, vars, funcs) == Success(s3)
    requires Step(s3, t3, vars, funcs) == Success(s4)
    requires Step(s4, t4, vars, funcs) == Success(s5)
    ensures Run(s0, [t0, t1, t2, t3, t4], vars, funcs) == Success(s5)
  {
    Run4(s1, s2, s3, s4, s5, t1, t2, t3, t4, vars, funcs);
    RunFirst(s0, t0, [t1, t2, t3, t4], s1, vars, funcs);
  }

  lemma {:induction false} Run6<F>(s0: State, s1: State, s2: State, s3: State, s4: State, s5: State, s6: State, t0: Lexeme, t1: Lexeme, t2: Lexeme, t3: Lexeme, t4: Lexeme, t5: Lexeme, vars: VT.VarTable, funcs: FT.FunctionTable<F>)
    requires Step(s0, t0, vars, funcs) == Success(s1)
    requires Step(s1, t1, vars, funcs) == Success(s2)
    requires Step(s2, t2, vars, funcs) == Success(s3)
    requires Step(s3, t3, vars, funcs) == Success(s4)
    requires Step(s4, t4, vars, funcs) == Success(s5)
    requires Step(s5, t5, vars, funcs) == Success(s6)
    ensures Run(s0, [t0, t1, t2, t3, t4, t5], vars, funcs) == Success(s6)
  {
    Run5(s1, s2, s3, s4, s5, s6, t1, t2, t3, t4, t5, vars, funcs);
    RunFirst(s0, t0, [t1, t2, t3, t4, t5], s1, vars, funcs);
  }

  lemma {:induction false} Run7<F>(s0: State, s1: State, s2: State, s3: State, s4: State, s5: State, s6: State, s7: State, t0: Lexeme, t1: Lexeme, t2: Lexeme, t3: Lexeme, t4: Lexeme, t5: Lexeme, t6: Lexeme, vars: VT.VarTable, funcs: FT.FunctionTable<F>)
    requires Step(s0, t0, vars, funcs) == Success(s1)
    requires Step(s1, t1, vars, funcs) == Success(s2)
    requires Step(s2, t2, vars, funcs) == Success(s3)
    requires Step(s3, t3, vars, funcs) == Success(s4)
    requires Step(s4, t4, vars, funcs) == Success(s5)
    requires Step(s5, t5, vars, funcs) == Success(s6)
    requires Step(s6, t6, vars, funcs) == Success(s7)
    ensures Run(s0, [t0, t1, t2, t3, t4, t5, t6], vars, funcs) == Success(s7)
  {
    Run6(s1, s2, s3, s4, s5, s6, s7, t1, t2, t3, t4, t5, t6, vars, funcs);
    RunFirst(s0, t0, [t1, t2, t3, t4, t5, t6], s1, vars, funcs);
  }

  /** A loop that ends with one operator on the stack parses to its output
      followed by that operator. */
  lemma {:induction false} ParseTo1<F>(source: string, toks: seq<Lexeme>, vars: VT.VarTable, funcs: FT.FunctionTable<F>,
                                       prev: Category, a: Lexeme, out: seq<Lexeme>, infix: seq<Lexeme>)
    requires Run(State(Start, [], [], []), toks, vars, funcs) == Success(State(prev, [a], out, infix))
    requires !IsOpen(a) && CanTransition(prev, End)
    ensures Parse(source, toks, vars, funcs) == Success(Parsed(infix, out + [a]))
  {
    FinishOne(State(prev, [a], out, infix), |source|, a);
  }

  lemma {:induction false} FinishOne(st: State, n: nat, a: Lexeme)
    requires st.stack == [a] && !IsOpen(a) && CanTransition(st.prev, End)
    ensures Finish(st, n) == Success(st.output + [a])
  {
    assert TopOpen([a]) == -1;
    assert [a][..0] == [];
    assert Reverse([a]) == [a];
  }

  /** A loop that ends with two operators on the stack parses to its output
      followed by them, top first. */
  lemma {:induction false} ParseTo2<F>(source: string, toks: seq<Lexeme>, vars: VT.VarTable, funcs: FT.FunctionTable<F>,
                                       prev: Category, a: Lexeme, b: Lexeme, out: seq<Lexeme>, infix: seq<Lexeme>)
    requires Run(State(Start, [], [], []), toks, vars, funcs) == Success(State(prev, [a, b], out, infix))
    requires !IsOpen(a) && !IsOpen(b) && CanTransition(prev, End)
    ensures Parse(source, toks, vars, funcs) == Success(Parsed(infix, out + [b, a]))
  {
    FinishTwo(State(prev, [a, b], out, infix), |source|, a, b);
  }

  lemma {:induction false} FinishTwo(st: State, n: nat, a: Lexeme, b: Lexeme)
    requires st.stack == [a, b] && !IsOpen(a) && !IsOpen(b) && CanTransition(st.prev, End)
    ensures Finish(st, n) == Success(st.output + [b, a])
  {
    assert TopOpen([a, b]) == -1;
    ReverseTwo(a, b);
  }

  lemma {:induction false} ReverseTwo(a: Lexeme, b: Lexeme)
    ensures Reverse([a, b]) == [b, a]
  {
    assert [a, b][..1] == [a] && [a][..0] == [];
    assert Reverse([a]) == [a];
  }

  /** A stream of words, the first one first. */
  lemma {:induction false} TerminatedCons(w: string, ws: seq<string>, sep: char)
    ensures Strings.Terminated([w] + ws, sep) == w + [sep] + Strings.Terminated(ws, sep)
  {
    assert ([w] + ws)[0] == w && ([w] + ws)[1..] == ws;
  }

  /** A stream of one word. */
  lemma {:induction false} TerminatedOne(w: string, sep: char)
    ensures Strings.Terminated([w], sep) == w + [sep]
  {
    assert [w][1..] == [];
  }

  // ----- the expressions of the tests -----

  /** The expression "10 + 20" of tests/test_expression.cpp:27-31 is constructed,
      and its postfix renders as "RPN: [ 10 20 + ]". */
  lemma {:induction false} SimpleAddition(sin: Evaluator.RealFunction, cos: Evaluator.RealFunction)
    ensures Expressions.Build("10 + 20", Vars, Funcs(sin, cos))
      == Success(Expressions.Expression("10 + 20", [ten0, plus3, twenty5], [ten0, twenty5, plus3]))
    ensures Render.ToPostfixString([ten0, twenty5, plus3]) == "RPN: [ 10 20 + ]"
  {
    SimpleAdditionLexes();
    SimpleAdditionParse(sin, cos);
    Built("10 + 20", [ten0, opPlus3, twenty5], Vars, Funcs(sin, cos), [ten0, plus3, twenty5], [ten0, twenty5, plus3]);
    SimpleAdditionRendering();
  }

  lemma {:induction false} SimpleAdditionLexes()
    ensures Lexer.Tokenize("10 + 20") == Success([ten0, opPlus3, twenty5])
  {
    var s := "10 + 20";
    assert |s| == 7 && s[0] == '1' && s[1] == '0' && s[2] == ' ' && s[3] == '+' && s[4] == ' ' && s[5] == '2' && s[6] == '0';
    SimpleAdditionScan0(s);
    ScansLex(s, 0, [ten0, opPlus3, twenty5]);
    assert s[0..] == s;
  }

  lemma {:induction false} SimpleAdditionScan5(s: string)
    requires |s| == 7 && s[5] == '2' && s[6] == '0'
    ensures Scans(s, 5, [twenty5])
  {
    assert s[5..7] == "20";
    NextNumber(s, 5, 7);
    assert Scans(s, 7, []);
    ScansCons(s, 5, twenty5, 7, [], [twenty5]);
  }

  lemma {:induction false} SimpleAdditionScan3(s: string)
    requires |s| == 7 && s[3] == '+' && s[4] == ' ' && s[5] == '2' && s[6] == '0'
    ensures Scans(s, 3, [opPlus3, twenty5])
  {
    assert s[3..4] == "+";
    NextSingle(s, 3, Operator);
    SimpleAdditionScan5(s);
    assert Blank(s, 4, 5);
    ScansCons(s, 3, opPlus3, 4, [twenty5], [opPlus3, twenty5]);
  }

  lemma {:induction false} SimpleAdditionScan0(s: string)
    requires |s| == 7 && s[0] == '1' && s[1] == '0' && s[2] == ' ' && s[3] == '+' && s[4] == ' ' && s[5] == '2' && s[6] == '0'
    ensures Scans(s, 0, [ten0, opPlus3, twenty5])
  {
    assert s[0..2] == "10";
    NextNumber(s, 0, 2);
    SimpleAdditionScan3(s);
    assert Blank(s, 2, 3);
    ScansCons(s, 0, ten0, 2, [opPlus3, twenty5], [ten0, opPlus3, twenty5]);
  }

  lemma {:induction false} SimpleAdditionParse<F>(sin: F, cos: F)
    ensures Parse("10 + 20", [ten0, opPlus3, twenty5], Vars, Funcs(sin, cos))
      == Success(Parsed([ten0, plus3, twenty5], [ten0, twenty5, plus3]))
  {
    SimpleAdditionRun(sin, cos);
    assert [ten0, twenty5] + [plus3] == [ten0, twenty5, plus3];
    ParseTo1("10 + 20", [ten0, opPlus3, twenty5], Vars, Funcs(sin, cos), Number, plus3, [ten0, twenty5], [ten0, plus3, twenty5]);
  }

  lemma {:induction false} SimpleAdditionRendering()
    ensures Render.ToPostfixString([ten0, twenty5, plus3]) == "RPN: [ 10 20 + ]"
  {
    SimpleAdditionWords();
    SimpleAdditionTerminated();
  }

  lemma {:induction false} SimpleAdditionWords()
    ensures Render.ShownAll([ten0, twenty5, plus3]) == ["10", "20", "+"]
  {
  }

  lemma {:induction false} SimpleAdditionTerminated()
    ensures Strings.Terminated(["10", "20", "+"], ' ') == "10 20 + "
  {
    TerminatedOne("+", ' ');
    assert ["20", "+"] == ["20"] + ["+"];
    TerminatedCons("20", ["+"], ' ');
    assert ["10", "20", "+"] == ["10"] + ["20", "+"];
    TerminatedCons("10", ["20", "+"], ' ');
  }

  lemma {:induction false} SimpleAdditionRun<F>(sin: F, cos: F)
    ensures Run(State(Start, [], [], []), [ten0, opPlus3, twenty5], Vars, Funcs(sin, cos))
      == Success(State(Number, [plus3], [ten0, twenty5], [ten0, plus3, twenty5]))
  {
    SimpleAdditionStep1(sin, cos);
    SimpleAdditionStep2(sin, cos);
    SimpleAdditionStep3(sin, cos);
    Run3(State(Start, [], [], []),
         State(Number, [], [ten0], [ten0]),
         State(BinaryOperator, [plus3], [ten0], [ten0, plus3]),
         State(Number, [plus3], [ten0, twenty5], [ten0, plus3, twenty5]),
         ten0, opPlus3, twenty5, Vars, Funcs(sin, cos));
  }

  lemma {:induction false} SimpleAdditionStep1<F>(sin: F, cos: F)
    ensures Step(State(Start, [], [], []), ten0, Vars, Funcs(sin, cos))
      == Success(State(Number, [], [ten0], [ten0]))
  {
    assert [] + [ten0] == [ten0];
    StepOperand(Start, [], [], [], ten0, ten0, Vars, Funcs(sin, cos));
  }

  lemma {:induction false} SimpleAdditionStep2<F>(sin: F, cos: F)
    ensures Step(State(Number, [], [ten0], [ten0]), opPlus3, Vars, Funcs(sin, cos))
      == Success(State(BinaryOperator, [plus3], [ten0], [ten0, plus3]))
  {
    assert [] + [plus3] == [plus3];
    assert [ten0] + [plus3] == [ten0, plus3];
    assert Reclassify(opPlus3, Number, Vars, Funcs(sin, cos)) == Success(plus3);
    StepPushEmpty(Number, [ten0], [ten0], opPlus3, plus3, Vars, Funcs(sin, cos));
  }

  lemma {:induction false} SimpleAdditionStep3<F>(sin: F, cos: F)
    ensures Step(State(BinaryOperator, [plus3], [ten0], [ten0, plus3]), twenty5, Vars, Funcs(sin, cos))
      == Success(State(Number, [plus3], [ten0, twenty5], [ten0, plus3, twenty5]))
  {
    assert [ten0] + [twenty5] == [ten0, twenty5];
    assert [ten0, plus3] + [twenty5] == [ten0, plus3, twenty5];
    StepOperand(BinaryOperator, [plus3], [ten0], [ten0, plus3], twenty5, twenty5, Vars, Funcs(sin, cos));
  }

  /** The expression "x + y * 2" of tests/test_expression.cpp:33-37 is constructed,
      and its postfix renders as "RPN: [ x y 2 * + ]". */
  lemma {:induction false} VariablesAndPriorities(sin: Evaluator.RealFunction, cos: Evaluator.RealFunction)
    ensures Expressions.Build("x + y * 2", Vars, Funcs(sin, cos))
      == Success(Expressions.Expression("x + y * 2", [x0, plus2, y4, times6, two8], [x0, y4, two8, times6, plus2]))
    ensures Render.ToPostfixString([x0, y4, two8, times6, plus2]) == "RPN: [ x y 2 * + ]"
  {
    VariablesAndPrioritiesLexes();
    VariablesAndPrioritiesParse(sin, cos);
    Built("x + y * 2", [idX0, opPlus2, idY4, opTimes6, two8], Vars, Funcs(sin, cos), [x0, plus2, y4, times6, two8], [x0, y4, two8, times6, plus2]);
    VariablesAndPrioritiesRendering();
  }

  lemma {:induction false} VariablesAndPrioritiesLexes()
    ensures Lexer.Tokenize("x + y * 2") == Success([idX0, opPlus2, idY4, opTimes6, two8])
  {
    var s := "x + y * 2";
    assert |s| == 9 && s[0] == 'x' && s[1] == ' ' && s[2] == '+' && s[3] == ' ' && s[4] == 'y' && s[5] == ' ' && s[6] == '*' && s[7] == ' ' && s[8] == '2';
    VariablesAndPrioritiesScan0(s);
    ScansLex(s, 0, [idX0, opPlus2, idY4, opTimes6, two8]);
    assert s[0..] == s;
  }

  lemma {:induction false} VariablesAndPrioritiesScan8(s: string)
    requires |s| == 9 && s[8] == '2'
    ensures Scans(s, 8, [two8])
  {
    assert s[8..9] == "2";
    NextNumber(s, 8, 9);
    assert Scans(s, 9, []);
    ScansCons(s, 8, two8, 9, [], [two8]);
  }

  lemma {:induction false} VariablesAndPrioritiesScan6(s: string)
    requires |s| == 9 && s[6] == '*' && s[7] == ' ' && s[8] == '2'
    ensures Scans(s, 6, [opTimes6, two8])
  {
    assert s[6..7] == "*";
    NextSingle(s, 6, Operator);
    VariablesAndPrioritiesScan8(s);
    assert Blank(s, 7, 8);
    ScansCons(s, 6, opTimes6, 7, [two8], [opTimes6, two8]);
  }

  lemma {:induction false} VariablesAndPrioritiesScan4(s: string)
    requires |s| == 9 && s[4] == 'y' && s[5] == ' ' && s[6] == '*' && s[7] == ' ' && s[8] == '2'
    ensures Scans(s, 4, [idY4, opTimes6, two8])
  {
    assert s[4..5] == "y";
    NextIdent(s, 4, 5);
    VariablesAndPrioritiesScan6(s);
    assert Blank(s, 5, 6);
    ScansCons(s, 4, idY4, 5, [opTimes6, two8], [idY4, opTimes6, two8]);
  }

  lemma {:induction false} VariablesAndPrioritiesScan2(s: string)
    requires |s| == 9 && s[2] == '+' && s[3] == ' ' && s[4] == 'y' && s[5] == ' ' && s[6] == '*' && s[7] == ' ' && s[8] == '2'
    ensures Scans(s, 2, [opPlus2, idY4, opTimes6, two8])
  {
    assert s[2..3] == "+";
    NextSingle(s, 2, Operator);
    VariablesAndPrioritiesScan4(s);
    assert Blank(s, 3, 4);
    ScansCons(s, 2, opPlus2, 3, [idY4, opTimes6, two8], [opPlus2, idY4, opTimes6, two8]);
  }

  lemma {:induction false} VariablesAndPrioritiesScan0(s: string)
    requires |s| == 9 && s[0] == 'x' && s[1] == ' ' && s[2] == '+' && s[3] == ' ' && s[4] == 'y' && s[5] == ' ' && s[6] == '*' && s[7] == ' ' && s[8] == '2'
    ensures Scans(s, 0, [idX0, opPlus2, idY4, opTimes6, two8])
  {
    assert s[0..1] == "x";
    NextIdent(s, 0, 1);
    VariablesAndPrioritiesScan2(s);
    assert Blank(s, 1, 2);
    ScansCons(s, 0, idX0, 1, [opPlus2, idY4, opTimes6, two8], [idX0, opPlus2, idY4, opTimes6, two8]);
  }

  lemma {:induction false} VariablesAndPrioritiesParse<F>(sin: F, cos: F)
    ensures Parse("x + y * 2", [idX0, opPlus2, idY4, opTimes6, two8], Vars, Funcs(sin, cos))
      == Success(Parsed([x0, plus2, y4, times6, two8], [x0, y4, two8, times6, plus2]))
  {
    VariablesAndPrioritiesRun(sin, cos);
    assert [x0, y4, two8] + [times6, plus2] == [x0, y4, two8, times6, plus2];
    ParseTo2("x + y * 2", [idX0, opPlus2, idY4, opTimes6, two8], Vars, Funcs(sin, cos), Number, plus2, times6, [x0, y4, two8], [x0, plus2, y4, times6, two8]);
  }

  lemma {:induction false} VariablesAndPrioritiesRendering()
    ensures Render.ToPostfixString([x0, y4, two8, times6, plus2]) == "RPN: [ x y 2 * + ]"
  {
    VariablesAndPrioritiesWords();
    VariablesAndPrioritiesTerminated();
  }

  lemma {:induction false} VariablesAndPrioritiesWords()
    ensures Render.ShownAll([x0, y4, two8, times6, plus2]) == ["x", "y", "2", "*", "+"]
  {
  }

  lemma {:induction false} VariablesAndPrioritiesTerminated()
    ensures Strings.Terminated(["x", "y", "2", "*", "+"], ' ') == "x y 2 * + "
  {
    TerminatedOne("+", ' ');
    assert ["*", "+"] == ["*"] + ["+"];
    TerminatedCons("*", ["+"], ' ');
    assert ["2", "*", "+"] == ["2"] + ["*", "+"];
    TerminatedCons("2", ["*", "+"], ' ');
    assert ["y", "2", "*", "+"] == ["y"] + ["2", "*", "+"];
    TerminatedCons("y", ["2", "*", "+"], ' ');
    assert ["x", "y", "2", "*", "+"] == ["x"] + ["y", "2", "*", "+"];
    TerminatedCons("x", ["y", "2", "*", "+"], ' ');
  }

  lemma {:induction false} VariablesAndPrioritiesRun<F>(sin: F, cos: F)
    ensures Run(State(Start, [], [], []), [idX0, opPlus2, idY4, opTimes6, two8], Vars, Funcs(sin, cos))
      == Success(State(Number, [plus2, times6], [x0, y4, two8], [x0, plus2, y4, times6, two8]))
  {
    VariablesAndPrioritiesStep1(sin, cos);
    VariablesAndPrioritiesStep2(sin, cos);
    VariablesAndPrioritiesStep3(sin, cos);
    VariablesAndPrioritiesStep4(sin, cos);
    VariablesAndPrioritiesStep5(sin, cos);
    Run5(State(Start, [], [], []),
         State(Variable, [], [x0], [x0]),
         State(BinaryOperator, [plus2], [x0], [x0, plus2]),
         State(Variable, [plus2], [x0, y4], [x0, plus2, y4]),
         State(BinaryOperator, [plus2, times6], [x0, y4], [x0, plus2, y4, times6]),
         State(Number, [plus2, times6], [x0, y4, two8], [x0, plus2, y4, times6, two8]),
         idX0, opPlus2, idY4, opTimes6, two8, Vars, Funcs(sin, cos));
  }

  lemma {:induction false} VariablesAndPrioritiesStep1<F>(sin: F, cos: F)
    ensures Step(State(Start, [], [], []), idX0, Vars, Funcs(sin, cos))
      == Success(State(Variable, [], [x0], [x0]))
  {
    Names(sin, cos);
    assert [] + [x0] == [x0];
    assert Reclassify(idX0, Start, Vars, Funcs(sin, cos)) == Success(x0);
    StepOperand(Start, [], [], [], idX0, x0, Vars, Funcs(sin, cos));
  }

  lemma {:induction false} VariablesAndPrioritiesStep2<F>(sin: F, cos: F)
    ensures Step(State(Variable, [], [x0], [x0]), opPlus2, Vars, Funcs(sin, cos))
      == Success(State(BinaryOperator, [plus2], [x0], [x0, plus2]))
  {
    assert [] + [plus2] == [plus2];
    assert [x0] + [plus2] == [x0, plus2];
    assert Reclassify(opPlus2, Variable, Vars, Funcs(sin, cos)) == Success(plus2);
    StepPushEmpty(Variable, [x0], [x0], opPlus2, plus2, Vars, Funcs(sin, cos));
  }

  lemma {:induction false} VariablesAndPrioritiesStep3<F>(sin: F, cos: F)
    ensures Step(State(BinaryOperator, [plus2], [x0], [x0, plus2]), idY4, Vars, Funcs(sin, cos))
      == Success(State(Variable, [plus2], [x0, y4], [x0, plus2, y4]))
  {
    Names(sin, cos);
    assert [x0] + [y4] == [x0, y4];
    assert [x0, plus2] + [y4] == [x0, plus2, y4];
    assert Reclassify(idY4, BinaryOperator, Vars, Funcs(sin, cos)) == Success(y4);
    StepOperand(BinaryOperator, [plus2], [x0], [x0, plus2], idY4, y4, Vars, Funcs(sin, cos));
  }

  lemma {:induction false} VariablesAndPrioritiesStep4<F>(sin: F, cos: F)
    ensures Step(State(Variable, [plus2], [x0, y4], [x0, plus2, y4]), opTimes6, Vars, Funcs(sin, cos))
      == Success(State(BinaryOperator, [plus2, times6], [x0, y4], [x0, plus2, y4, times6]))
  {
    assert [plus2] + [times6] == [plus2, times6];
    assert [x0, plus2, y4] + [times6] == [x0, plus2, y4, times6];
    assert Reclassify(opTimes6, Variable, Vars, Funcs(sin, cos)) == Success(times6);
    StepPush(Variable, [plus2], [x0, y4], [x0, plus2, y4], opTimes6, times6, Vars, Funcs(sin, cos));
  }

  lemma {:induction false} VariablesAndPrioritiesStep5<F>(sin: F, cos: F)
    ensures Step(State(BinaryOperator, [plus2, times6], [x0, y4], [x0, plus2, y4, times6]), two8, Vars, Funcs(sin, cos))
      == Success(State(Number, [plus2, times6], [x0, y4, two8], [x0, plus2, y4, times6, two8]))
  {
    assert [x0, y4] + [two8] == [x0, y4, two8];
    assert [x0, plus2, y4, times6] + [two8] == [x0, plus2, y4, times6, two8];
    StepOperand(BinaryOperator, [plus2, times6], [x0, y4], [x0, plus2, y4, times6], two8, two8, Vars, Funcs(sin, cos));
  }

  /** The expression "(x + y) * 2" of tests/test_expression.cpp:39-43 is constructed,
      and its postfix renders as "RPN: [ x y + 2 * ]". */
  lemma {:induction false} BracketsChangePriority(sin: Evaluator.RealFunction, cos: Evaluator.RealFunction)
    ensures Expressions.Build("(x + y) * 2", Vars, Funcs(sin, cos))
      == Success(Expressions.Expression("(x + y) * 2", [open0, x1, plus3, y5, close6, times8, two10], [x1, y5, plus3, two10, times8]))
    ensures Render.ToPostfixString([x1, y5, plus3, two10, times8]) == "RPN: [ x y + 2 * ]"
  {
    BracketsChangePriorityLexes();
    BracketsChangePriorityParse(sin, cos);
    Built("(x + y) * 2", [open0, idX1, opPlus3, idY5, close6, opTimes8, two10], Vars, Funcs(sin, cos), [open0, x1, plus3, y5, close6, times8, two10], [x1, y5, plus3, two10, times8]);
    BracketsChangePriorityRendering();
  }

  lemma {:induction false} BracketsChangePriorityLexes()
    ensures Lexer.Tokenize("(x + y) * 2") == Success([open0, idX1, opPlus3, idY5, close6, opTimes8, two10])
  {
    var s := "(x + y) * 2";
    assert |s| == 11 && s[0] == '(' && s[1] == 'x' && s[2] == ' ' && s[3] == '+' && s[4] == ' ' && s[5] == 'y' && s[6] == ')' && s[7] == ' ' && s[8] == '*' && s[9] == ' ' && s[10] == '2';
    BracketsChangePriorityScan0(s);
    ScansLex(s, 0, [open0, idX1, opPlus3, idY5, close6, opTimes8, two10]);
    assert s[0..] == s;
  }

  lemma {:induction false} BracketsChangePriorityScan10(s: string)
    requires |s| == 11 && s[10] == '2'
    ensures Scans(s, 10, [two10])
  {
    assert s[10..11] == "2";
    NextNumber(s, 10, 11);
    assert Scans(s, 11, []);
    ScansCons(s, 10, two10, 11, [], [two10]);
  }

  lemma {:induction false} BracketsChangePriorityScan8(s: string)
    requires |s| == 11 && s[8] == '*' && s[9] == ' ' && s[10] == '2'
    ensures Scans(s, 8, [opTimes8, two10])
  {
    assert s[8..9] == "*";
    NextSingle(s, 8, Operator);
    BracketsChangePriorityScan10(s);
    assert Blank(s, 9, 10);
    ScansCons(s, 8, opTimes8, 9, [two10], [opTimes8, two10]);
  }

  lemma {:induction false} BracketsChangePriorityScan6(s: string)
    requires |s| == 11 && s[6] == ')' && s[7] == ' ' && s[8] == '*' && s[9] == ' ' && s[10] == '2'
    ensures Scans(s, 6, [close6, opTimes8, two10])
  {
    assert s[6..7] == ")";
    NextSingle(s, 6, RightBracket);
    BracketsChangePriorityScan8(s);
    assert Blank(s, 7, 8);
    ScansCons(s, 6, close6, 7, [opTimes8, two10], [close6, opTimes8, two10]);
  }

  lemma {:induction false} BracketsChangePriorityScan5(s: string)
    requires |s| == 11 && s[5] == 'y' && s[6] == ')' && s[7] == ' ' && s[8] == '*' && s[9] == ' ' && s[10] == '2'
    ensures Scans(s, 5, [idY5, close6, opTimes8, two10])
  {
    assert s[5..6] == "y";
    NextIdent(s, 5, 6);
    BracketsChangePriorityScan6(s);
    ScansCons(s, 5, idY5, 6, [close6, opTimes8, two10], [idY5, close6, opTimes8, two10]);
  }

  lemma {:induction false} BracketsChangePriorityScan3(s: string)
    requires |s| == 11 && s[3] == '+' && s[4] == ' ' && s[5] == 'y' && s[6] == ')' && s[7] == ' ' && s[8] == '*' && s[9] == ' ' && s[10] == '2'
    ensures Scans(s, 3, [opPlus3, idY5, close6, opTimes8, two10])
  {
    assert s[3..4] == "+";
    NextSingle(s, 3, Operator);
    BracketsChangePriorityScan5(s);
    assert Blank(s, 4, 5);
    ScansCons(s, 3, opPlus3, 4, [idY5, close6, opTimes8, two10], [opPlus3, idY5, close6, opTimes8, two10]);
  }

  lemma {:induction false} BracketsChangePriorityScan1(s: string)
    requires |s| == 11 && s[1] == 'x' && s[2] == ' ' && s[3] == '+' && s[4] == ' ' && s[5] == 'y' && s[6] == ')' && s[7] == ' ' && s[8] == '*' && s[9] == ' ' && s[10] == '2'
    ensures Scans(s, 1, [idX1, opPlus3, idY5, close6, opTimes8, two10])
  {
    assert s[1..2] == "x";
    NextIdent(s, 1, 2);
    BracketsChangePriorityScan3(s);
    assert Blank(s, 2, 3);
    ScansCons(s, 1, idX1, 2, [opPlus3, idY5, close6, opTimes8, two10], [idX1, opPlus3, idY5, close6, opTimes8, two10]);
  }

  lemma {:induction false} BracketsChangePriorityScan0(s: string)
    requires |s| == 11 && s[0] == '(' && s[1] == 'x' && s[2] == ' ' && s[3] == '+' && s[4] == ' ' && s[5] == 'y' && s[6] == ')' && s[7] == ' ' && s[8] == '*' && s[9] == ' ' && s[10] == '2'
    ensures Scans(s, 0, [open0, idX1, opPlus3, idY5, close6, opTimes8, two10])
  {
    assert s[0..1] == "(";
    NextSingle(s, 0, LeftBracket);
    BracketsChangePriorityScan1(s);
    ScansCons(s, 0, open0, 1, [idX1, opPlus3, idY5, close6, opTimes8, two10], [open0, idX1, opPlus3, idY5, close6, opTimes8, two10]);
  }

  lemma {:induction false} BracketsChangePriorityParse<F>(sin: F, cos: F)
    ensures Parse("(x + y) * 2", [open0, idX1, opPlus3, idY5, close6, opTimes8, two10], Vars, Funcs(sin, cos))
      == Success(Parsed([open0, x1, plus3, y5, close6, times8, two10], [x1, y5, plus3, two10, times8]))
  {
    BracketsChangePriorityRun(sin, cos);
    assert [x1, y5, plus3, two10] + [times8] == [x1, y5, plus3, two10, times8];
    ParseTo1("(x + y) * 2", [open0, idX1, opPlus3, idY5, close6, opTimes8, two10], Vars, Funcs(sin, cos), Number, times8, [x1, y5, plus3, two10], [open0, x1, plus3, y5, close6, times8, two10]);
  }

  lemma {:induction false} BracketsChangePriorityRendering()
    ensures Render.ToPostfixString([x1, y5, plus3, two10, times8]) == "RPN: [ x y + 2 * ]"
  {
    BracketsChangePriorityWords();
    BracketsChangePriorityTerminated();
  }

  lemma {:induction false} BracketsChangePriorityWords()
    ensures Render.ShownAll([x1, y5, plus3, two10, times8]) == ["x", "y", "+", "2", "*"]
  {
  }

  lemma {:induction false} BracketsChangePriorityTerminated()
    ensures Strings.Terminated(["x", "y", "+", "2", "*"], ' ') == "x y + 2 * "
  {
    TerminatedOne("*", ' ');
    assert ["2", "*"] == ["2"] + ["*"];
    TerminatedCons("2", ["*"], ' ');
    assert ["+", "2", "*"] == ["+"] + ["2", "*"];
    TerminatedCons("+", ["2", "*"], ' ');
    assert ["y", "+", "2", "*"] == ["y"] + ["+", "2", "*"];
    TerminatedCons("y", ["+", "2", "*"], ' ');
    assert ["x", "y", "+", "2", "*"] == ["x"] + ["y", "+", "2", "*"];
    TerminatedCons("x", ["y", "+", "2", "*"], ' ');
  }

  lemma {:induction false} BracketsChangePriorityRun<F>(sin: F, cos: F)
    ensures Run(State(Start, [], [], []), [open0, idX1, opPlus3, idY5, close6, opTimes8, two10], Vars, Funcs(sin, cos))
      == Success(State(Number, [times8], [x1, y5, plus3, two10], [open0, x1, plus3, y5, close6, times8, two10]))
  {
    BracketsChangePriorityStep1(sin, cos);
    BracketsChangePriorityStep2(sin, cos);
    BracketsChangePriorityStep3(sin, cos);
    BracketsChangePriorityStep4(sin, cos);
    BracketsChangePriorityStep5(sin, cos);
    BracketsChangePriorityStep6(sin, cos);
    BracketsChangePriorityStep7(sin, cos);
    Run7(State(Start, [], [], []),
         State(LeftBracket, [open0], [], [open0]),
         State(Variable, [open0], [x1], [open0, x1]),
         State(BinaryOperator, [open0, plus3], [x1], [open0, x1, plus3]),
         State(Variable, [open0, plus3], [x1, y5], [open0, x1, plus3, y5]),
         State(RightBracket, [], [x1, y5, plus3], [open0, x1, plus3, y5, close6]),
         State(BinaryOperator, [times8], [x1, y5, plus3], [open0, x1, plus3, y5, close6, times8]),
         State(Number, [times8], [x1, y5, plus3, two10], [open0, x1, plus3, y5, close6, times8, two10]),
         open0, idX1, opPlus3, idY5, close6, opTimes8, two10, Vars, Funcs(sin, cos));
  }

  lemma {:induction false} BracketsChangePriorityStep1<F>(sin: F, cos: F)
    ensures Step(State(Start, [], [], []), open0, Vars, Funcs(sin, cos))
      == Success(State(LeftBracket, [open0], [], [open0]))
  {
    assert [] + [open0] == [open0];
    StepOpen(Start, [], [], [], open0, open0, Vars, Funcs(sin, cos));
  }

  lemma {:induction false} BracketsChangePriorityStep2<F>(sin: F, cos: F)
    ensures Step(State(LeftBracket, [open0], [], [open0]), idX1, Vars, Funcs(sin, cos))
      == Success(State(Variable, [open0], [x1], [open0, x1]))
  {
    Names(sin, cos);
    assert [] + [x1] == [x1];
    assert [open0] + [x1] == [open0, x1];
    assert Reclassify(idX1, LeftBracket, Vars, Funcs(sin, cos)) == Success(x1);
    StepOperand(LeftBracket, [open0], [], [open0], idX1, x1, Vars, Funcs(sin, cos));
  }

  lemma {:induction false} BracketsChangePriorityStep3<F>(sin: F, cos: F)
    ensures Step(State(Variable, [open0], [x1], [open0, x1]), opPlus3, Vars, Funcs(sin, cos))
      == Success(State(BinaryOperator, [open0, plus3], [x1], [open0, x1, plus3]))
  {
    assert [open0] + [plus3] == [open0, plus3];
    assert [open0, x1] + [plus3] == [open0, x1, plus3];
    assert Reclassify(opPlus3, Variable, Vars, Funcs(sin, cos)) == Success(plus3);
    StepPush(Variable, [open0], [x1], [open0, x1], opPlus3, plus3, Vars, Funcs(sin, cos));
  }

  lemma {:induction false} BracketsChangePriorityStep4<F>(sin: F, cos: F)
    ensures Step(State(BinaryOperator, [open0, plus3], [x1], [open0, x1, plus3]), idY5, Vars, Funcs(sin, cos))
      == Success(State(Variable, [open0, plus3], [x1, y5], [open0, x1, plus3, y5]))
  {
    Names(sin, cos);
    assert [x1] + [y5] == [x1, y5];
    assert [open0, x1, plus3] + [y5] == [open0, x1, plus3, y5];
    assert Reclassify(idY5, BinaryOperator, Vars, Funcs(sin, cos)) == Success(y5);
    StepOperand(BinaryOperator, [open0, plus3], [x1], [open0, x1, plus3], idY5, y5, Vars, Funcs(sin, cos));
  }

  lemma {:induction false} BracketsChangePriorityStep5<F>(sin: F, cos: F)
    ensures Step(State(Variable, [open0, plus3], [x1, y5], [open0, x1, plus3, y5]), close6, Vars, Funcs(sin, cos))
      == Success(State(RightBracket, [], [x1, y5, plus3], [open0, x1, plus3, y5, close6]))
  {
    assert [x1, y5] + [plus3] == [x1, y5, plus3];
    assert [open0, x1, plus3, y5] + [close6] == [open0, x1, plus3, y5, close6];
    StepCloseOver(Variable, open0, plus3, [x1, y5], [open0, x1, plus3, y5], close6, Vars, Funcs(sin, cos));
  }

  lemma {:induction false} BracketsChangePriorityStep6<F>(sin: F, cos: F)
    ensures Step(State(RightBracket, [], [x1, y5, plus3], [open0, x1, plus3, y5, close6]), opTimes8, Vars, Funcs(sin, cos))
      == Success(State(BinaryOperator, [times8], [x1, y5, plus3], [open0, x1, plus3, y5, close6, times8]))
  {
    assert [] + [times8] == [times8];
    assert [open0, x1, plus3, y5, close6] + [times8] == [open0, x1, plus3, y5, close6, times8];
    assert Reclassify(opTimes8, RightBracket, Vars, Funcs(sin, cos)) == Success(times8);
    StepPushEmpty(RightBracket, [x1, y5, plus3], [open0, x1, plus3, y5, close6], opTimes8, times8, Vars, Funcs(sin, cos));
  }

  lemma {:induction false} BracketsChangePriorityStep7<F>(sin: F, cos: F)
    ensures Step(State(BinaryOperator, [times8], [x1, y5, plus3], [open0, x1, plus3, y5, close6, times8]), two10, Vars, Funcs(sin, cos))
      == Success(State(Number, [times8], [x1, y5, plus3, two10], [open0, x1, plus3, y5, close6, times8, two10]))
  {
    assert [x1, y5, plus3] + [two10] == [x1, y5, plus3, two10];
    assert [open0, x1, plus3, y5, close6, times8] + [two10] == [open0, x1, plus3, y5, close6, times8, two10];
    StepOperand(BinaryOperator, [times8], [x1, y5, plus3], [open0, x1, plus3, y5, close6, times8], two10, two10, Vars, Funcs(sin, cos));
  }

  /** The expression "-x + 5" of tests/test_expression.cpp:45-49 is constructed,
      and its postfix renders as "RPN: [ x u- 5 + ]". */
  lemma {:induction false} UnaryMinusAtStart(sin: Evaluator.RealFunction, cos: Evaluator.RealFunction)
    ensures Expressions.Build("-x + 5", Vars, Funcs(sin, cos))
      == Success(Expressions.Expression("-x + 5", [neg0, x1, plus3, five5], [x1, neg0, five5, plus3]))
    ensures Render.ToPostfixString([x1, neg0, five5, plus3]) == "RPN: [ x u- 5 + ]"
  {
    UnaryMinusAtStartLexes();
    UnaryMinusAtStartParse(sin, cos);
    Built("-x + 5", [opMinus0, idX1, opPlus3, five5], Vars, Funcs(sin, cos), [neg0, x1, plus3, five5], [x1, neg0, five5, plus3]);
    UnaryMinusAtStartRendering();
  }

  lemma {:induction false} UnaryMinusAtStartLexes()
    ensures Lexer.Tokenize("-x + 5") == Success([opMinus0, idX1, opPlus3, five5])
  {
    var s := "-x + 5";
    assert |s| == 6 && s[0] == '-' && s[1] == 'x' && s[2] == ' ' && s[3] == '+' && s[4] == ' ' && s[5] == '5';
    UnaryMinusAtStartScan0(s);
    ScansLex(s, 0, [opMinus0, idX1, opPlus3, five5]);
    assert s[0..] == s;
  }

  lemma {:induction false} UnaryMinusAtStartScan5(s: string)
    requires |s| == 6 && s[5] == '5'
    ensures Scans(s, 5, [five5])
  {
    assert s[5..6] == "5";
    NextNumber(s, 5, 6);
    assert Scans(s, 6, []);
    ScansCons(s, 5, five5, 6, [], [five5]);
  }

  lemma {:induction false} UnaryMinusAtStartScan3(s: string)
    requires |s| == 6 && s[3] == '+' && s[4] == ' ' && s[5] == '5'
    ensures Scans(s, 3, [opPlus3, five5])
  {
    assert s[3..4] == "+";
    NextSingle(s, 3, Operator);
    UnaryMinusAtStartScan5(s);
    assert Blank(s, 4, 5);
    ScansCons(s, 3, opPlus3, 4, [five5], [opPlus3, five5]);
  }

  lemma {:induction false} UnaryMinusAtStartScan1(s: string)
    requires |s| == 6 && s[1] == 'x' && s[2] == ' ' && s[3] == '+' && s[4] == ' ' && s[5] == '5'
    ensures Scans(s, 1, [idX1, opPlus3, five5])
  {
    assert s[1..2] == "x";
    NextIdent(s, 1, 2);
    UnaryMinusAtStartScan3(s);
    assert Blank(s, 2, 3);
    ScansCons(s, 1, idX1, 2, [opPlus3, five5], [idX1, opPlus3, five5]);
  }

  lemma {:induction false} UnaryMinusAtStartScan0(s: string)
    requires |s| == 6 && s[0] == '-' && s[1] == 'x' && s[2] == ' ' && s[3] == '+' && s[4] == ' ' && s[5] == '5'
    ensures Scans(s, 0, [opMinus0, idX1, opPlus3, five5])
  {
    assert s[0..1] == "-";
    NextSingle(s, 0, Operator);
    UnaryMinusAtStartScan1(s);
    ScansCons(s, 0, opMinus0, 1, [idX1, opPlus3, five5], [opMinus0, idX1, opPlus3, five5]);
  }

  lemma {:induction false} UnaryMinusAtStartParse<F>(sin: F, cos: F)
    ensures Parse("-x + 5", [opMinus0, idX1, opPlus3, five5], Vars, Funcs(sin, cos))
      == Success(Parsed([neg0, x1, plus3, five5], [x1, neg0, five5, plus3]))
  {
    UnaryMinusAtStartRun(sin, cos);
    assert [x1, neg0, five5] + [plus3] == [x1, neg0, five5, plus3];
    ParseTo1("-x + 5", [opMinus0, idX1, opPlus3, five5], Vars, Funcs(sin, cos), Number, plus3, [x1, neg0, five5], [neg0, x1, plus3, five5]);
  }

  lemma {:induction false} UnaryMinusAtStartRendering()
    ensures Render.ToPostfixString([x1, neg0, five5, plus3]) == "RPN: [ x u- 5 + ]"
  {
    UnaryMinusAtStartWords();
    UnaryMinusAtStartTerminated();
  }

  lemma {:induction false} UnaryMinusAtStartWords()
    ensures Render.ShownAll([x1, neg0, five5, plus3]) == ["x", "u-", "5", "+"]
  {
    assert Render.Shown(neg0) == "u-";
  }

  lemma {:induction false} UnaryMinusAtStartTerminated()
    ensures Strings.Terminated(["x", "u-", "5", "+"], ' ') == "x u- 5 + "
  {
    TerminatedOne("+", ' ');
    assert ["5", "+"] == ["5"] + ["+"];
    TerminatedCons("5", ["+"], ' ');
    assert ["u-", "5", "+"] == ["u-"] + ["5", "+"];
    TerminatedCons("u-", ["5", "+"], ' ');
    assert ["x", "u-", "5", "+"] == ["x"] + ["u-", "5", "+"];
    TerminatedCons("x", ["u-", "5", "+"], ' ');
  }

  lemma {:induction false} UnaryMinusAtStartRun<F>(sin: F, cos: F)
    ensures Run(State(Start, [], [], []), [opMinus0, idX1, opPlus3, five5], Vars, Funcs(sin, cos))
      == Success(State(Number, [plus3], [x1, neg0, five5], [neg0, x1, plus3, five5]))
  {
    UnaryMinusAtStartStep1(sin, cos);
    UnaryMinusAtStartStep2(sin, cos);
    UnaryMinusAtStartStep3(sin, cos);
    UnaryMinusAtStartStep4(sin, cos);
    Run4(State(Start, [], [], []),
         State(UnaryOperator, [neg0], [], [neg0]),
         State(Variable, [neg0], [x1], [neg0, x1]),
         State(BinaryOperator, [plus3], [x1, neg0], [neg0, x1, plus3]),
         State(Number, [plus3], [x1, neg0, five5], [neg0, x1, plus3, five5]),
         opMinus0, idX1, opPlus3, five5, Vars, Funcs(sin, cos));
  }

  lemma {:induction false} UnaryMinusAtStartStep1<F>(sin: F, cos: F)
    ensures Step(State(Start, [], [], []), opMinus0, Vars, Funcs(sin, cos))
      == Success(State(UnaryOperator, [neg0], [], [neg0]))
  {
    assert [] + [neg0] == [neg0];
    assert Reclassify(opMinus0, Start, Vars, Funcs(sin, cos)) == Success(neg0);
    StepPushEmpty(Start, [], [], opMinus0, neg0, Vars, Funcs(sin, cos));
  }

  lemma {:induction false} UnaryMinusAtStartStep2<F>(sin: F, cos: F)
    ensures Step(State(UnaryOperator, [neg0], [], [neg0]), idX1, Vars, Funcs(sin, cos))
      == Success(State(Variable, [neg0], [x1], [neg0, x1]))
  {
    Names(sin, cos);
    assert [] + [x1] == [x1];
    assert [neg0] + [x1] == [neg0, x1];
    assert Reclassify(idX1, UnaryOperator, Vars, Funcs(sin, cos)) == Success(x1);
    StepOperand(UnaryOperator, [neg0], [], [neg0], idX1, x1, Vars, Funcs(sin, cos));
  }

  lemma {:induction false} UnaryMinusAtStartStep3<F>(sin: F, cos: F)
    ensures Step(State(Variable, [neg0], [x1], [neg0, x1]), opPlus3, Vars, Funcs(sin, cos))
      == Success(State(BinaryOperator, [plus3], [x1, neg0], [neg0, x1, plus3]))
  {
    assert [x1] + [neg0] == [x1, neg0];
    assert [neg0, x1] + [plus3] == [neg0, x1, plus3];
    assert Reclassify(opPlus3, Variable, Vars, Funcs(sin, cos)) == Success(plus3);
    StepPopPush(Variable, neg0, [x1], [neg0, x1], opPlus3, plus3, Vars, Funcs(sin, cos));
  }

  lemma {:induction false} UnaryMinusAtStartStep4<F>(sin: F, cos: F)
    ensures Step(State(BinaryOperator, [plus3], [x1, neg0], [neg0, x1, plus3]), five5, Vars, Funcs(sin, cos))
      == Success(State(Number, [plus3], [x1, neg0, five5], [neg0, x1, plus3, five5]))
  {
    assert [x1, neg0] + [five5] == [x1, neg0, five5];
    assert [neg0, x1, plus3] + [five5] == [neg0, x1, plus3, five5];
    StepOperand(BinaryOperator, [plus3], [x1, neg0], [neg0, x1, plus3], five5, five5, Vars, Funcs(sin, cos));
  }

  /** The expression "5 * -y" of tests/test_expression.cpp:51-55 is constructed,
      and its postfix renders as "RPN: [ 5 y u- * ]". */
  lemma {:induction false} UnaryMinusInMiddle(sin: Evaluator.RealFunction, cos: Evaluator.RealFunction)
    ensures Expressions.Build("5 * -y", Vars, Funcs(sin, cos))
      == Success(Expressions.Expression("5 * -y", [five0, times2, neg4, y5], [five0, y5, neg4, times2]))
    ensures Render.ToPostfixString([five0, y5, neg4, times2]) == "RPN: [ 5 y u- * ]"
  {
    UnaryMinusInMiddleLexes();
    UnaryMinusInMiddleParse(sin, cos);
    Built("5 * -y", [five0, opTimes2, opMinus4, idY5], Vars, Funcs(sin, cos), [five0, times2, neg4, y5], [five0, y5, neg4, times2]);
    UnaryMinusInMiddleRendering();
  }

  lemma {:induction false} UnaryMinusInMiddleLexes()
    ensures Lexer.Tokenize("5 * -y") == Success([five0, opTimes2, opMinus4, idY5])
  {
    var s := "5 * -y";
    assert |s| == 6 && s[0] == '5' && s[1] == ' ' && s[2] == '*' && s[3] == ' ' && s[4] == '-' && s[5] == 'y';
    UnaryMinusInMiddleScan0(s);
    ScansLex(s, 0, [five0, opTimes2, opMinus4, idY5]);
    assert s[0..] == s;
  }

  lemma {:induction false} UnaryMinusInMiddleScan5(s: string)
    requires |s| == 6 && s[5] == 'y'
    ensures Scans(s, 5, [idY5])
  {
    assert s[5..6] == "y";
    NextIdent(s, 5, 6);
    assert Scans(s, 6, []);
    ScansCons(s, 5, idY5, 6, [], [idY5]);
  }

  lemma {:induction false} UnaryMinusInMiddleScan4(s: string)
    requires |s| == 6 && s[4] == '-' && s[5] == 'y'
    ensures Scans(s, 4, [opMinus4, idY5])
  {
    assert s[4..5] == "-";
    NextSingle(s, 4, Operator);
    UnaryMinusInMiddleScan5(s);
    ScansCons(s, 4, opMinus4, 5, [idY5], [opMinus4, idY5]);
  }

  lemma {:induction false} UnaryMinusInMiddleScan2(s: string)
    requires |s| == 6 && s[2] == '*' && s[3] == ' ' && s[4] == '-' && s[5] == 'y'
    ensures Scans(s, 2, [opTimes2, opMinus4, idY5])
  {
    assert s[2..3] == "*";
    NextSingle(s, 2, Operator);
    UnaryMinusInMiddleScan4(s);
    assert Blank(s, 3, 4);
    ScansCons(s, 2, opTimes2, 3, [opMinus4, idY5], [opTimes2, opMinus4, idY5]);
  }

  lemma {:induction false} UnaryMinusInMiddleScan0(s: string)
    requires |s| == 6 && s[0] == '5' && s[1] == ' ' && s[2] == '*' && s[3] == ' ' && s[4] == '-' && s[5] == 'y'
    ensures Scans(s, 0, [five0, opTimes2, opMinus4, idY5])
  {
    assert s[0..1] == "5";
    NextNumber(s, 0, 1);
    UnaryMinusInMiddleScan2(s);
    assert Blank(s, 1, 2);
    ScansCons(s, 0, five0, 1, [opTimes2, opMinus4, idY5], [five0, opTimes2, opMinus4, idY5]);
  }

  lemma {:induction false} UnaryMinusInMiddleParse<F>(sin: F, cos: F)
    ensures Parse("5 * -y", [five0, opTimes2, opMinus4, idY5], Vars, Funcs(sin, cos))
      == Success(Parsed([five0, times2, neg4, y5], [five0, y5, neg4, times2]))
  {
    UnaryMinusInMiddleRun(sin, cos);
    assert [five0, y5] + [neg4, times2] == [five0, y5, neg4, times2];
    ParseTo2("5 * -y", [five0, opTimes2, opMinus4, idY5], Vars, Funcs(sin, cos), Variable, times2, neg4, [five0, y5], [five0, times2, neg4, y5]);
  }

  lemma {:induction false} UnaryMinusInMiddleRendering()
    ensures Render.ToPostfixString([five0, y5, neg4, times2]) == "RPN: [ 5 y u- * ]"
  {
    UnaryMinusInMiddleWords();
    UnaryMinusInMiddleTerminated();
  }

  lemma {:induction false} UnaryMinusInMiddleWords()
    ensures Render.ShownAll([five0, y5, neg4, times2]) == ["5", "y", "u-", "*"]
  {
    assert Render.Shown(neg4) == "u-";
  }

  lemma {:induction false} UnaryMinusInMiddleTerminated()
    ensures Strings.Terminated(["5", "y", "u-", "*"], ' ') == "5 y u- * "
  {
    TerminatedOne("*", ' ');
    assert ["u-", "*"] == ["u-"] + ["*"];
    TerminatedCons("u-", ["*"], ' ');
    assert ["y", "u-", "*"] == ["y"] + ["u-", "*"];
    TerminatedCons("y", ["u-", "*"], ' ');
    assert ["5", "y", "u-", "*"] == ["5"] + ["y", "u-", "*"];
    TerminatedCons("5", ["y", "u-", "*"], ' ');
  }

  lemma {:induction false} UnaryMinusInMiddleRun<F>(sin: F, cos: F)
    ensures Run(State(Start, [], [], []), [five0, opTimes2, opMinus4, idY5], Vars, Funcs(sin, cos))
      == Success(State(Variable, [times2, neg4], [five0, y5], [five0, times2, neg4, y5]))
  {
    UnaryMinusInMiddleStep1(sin, cos);
    UnaryMinusInMiddleStep2(sin, cos);
    UnaryMinusInMiddleStep3(sin, cos);
    UnaryMinusInMiddleStep4(sin, cos);
    Run4(State(Start, [], [], []),
         State(Number, [], [five0], [five0]),
         State(BinaryOperator, [times2], [five0], [five0, times2]),
         State(UnaryOperator, [times2, neg4], [five0], [five0, times2, neg4]),
         State(Variable, [times2, neg4], [five0, y5], [five0, times2, neg4, y5]),
         five0, opTimes2, opMinus4, idY5, Vars, Funcs(sin, cos));
  }

  lemma {:induction false} UnaryMinusInMiddleStep1<F>(sin: F, cos: F)
    ensures Step(State(Start, [], [], []), five0, Vars, Funcs(sin, cos))
      == Success(State(Number, [], [five0], [five0]))
  {
    assert [] + [five0] == [five0];
    StepOperand(Start, [], [], [], five0, five0, Vars, Funcs(sin, cos));
  }

  lemma {:induction false} UnaryMinusInMiddleStep2<F>(sin: F, cos: F)
    ensures Step(State(Number, [], [five0], [five0]), opTimes2, Vars, Funcs(sin, cos))
      == Success(State(BinaryOperator, [times2], [five0], [five0, times2]))
  {
    assert [] + [times2] == [times2];
    assert [five0] + [times2] == [five0, times2];
    assert Reclassify(opTimes2, Number, Vars, Funcs(sin, cos)) == Success(times2);
    StepPushEmpty(Number, [five0], [five0], opTimes2, times2, Vars, Funcs(sin, cos));
  }

  lemma {:induction false} UnaryMinusInMiddleStep3<F>(sin: F, cos: F)
    ensures Step(State(BinaryOperator, [times2], [five0], [five0, times2]), opMinus4, Vars, Funcs(sin, cos))
      == Success(State(UnaryOperator, [times2, neg4], [five0], [five0, times2, neg4]))
  {
    assert [times2] + [neg4] == [times2, neg4];
    assert [five0, times2] + [neg4] == [five0, times2, neg4];
    assert Reclassify(opMinus4, BinaryOperator, Vars, Funcs(sin, cos)) == Success(neg4);
    StepPush(BinaryOperator, [times2], [five0], [five0, times2], opMinus4, neg4, Vars, Funcs(sin, cos));
  }

  lemma {:induction false} UnaryMinusInMiddleStep4<F>(sin: F, cos: F)
    ensures Step(State(UnaryOperator, [times2, neg4], [five0], [five0, times2, neg4]), idY5, Vars, Funcs(sin, cos))
      == Success(State(Variable, [times2, neg4], [five0, y5], [five0, times2, neg4, y5]))
  {
    Names(sin, cos);
    assert [five0] + [y5] == [five0, y5];
    assert [five0, times2, neg4] + [y5] == [five0, times2, neg4, y5];
    assert Reclassify(idY5, UnaryOperator, Vars, Funcs(sin, cos)) == Success(y5);
    StepOperand(UnaryOperator, [times2, neg4], [five0], [five0, times2, neg4], idY5, y5, Vars, Funcs(sin, cos));
  }

  /** The expression "sin(x) + 1" of tests/test_expression.cpp:57-61 is constructed,
      and its postfix renders as "RPN: [ x sin 1 + ]". */
  lemma {:induction false} Functions(sin: Evaluator.RealFunction, cos: Evaluator.RealFunction)
    ensures Expressions.Build("sin(x) + 1", Vars, Funcs(sin, cos))
      == Success(Expressions.Expression("sin(x) + 1", [sin0, open3, x4, close5, plus7, one9], [x4, sin0, one9, plus7]))
    ensures Render.ToPostfixString([x4, sin0, one9, plus7]) == "RPN: [ x sin 1 + ]"
  {
    FunctionsLexes();
    FunctionsParse(sin, cos);
    Built("sin(x) + 1", [idSin0, open3, idX4, close5, opPlus7, one9], Vars, Funcs(sin, cos), [sin0, open3, x4, close5, plus7, one9], [x4, sin0, one9, plus7]);
    FunctionsRendering();
  }

  lemma {:induction false} FunctionsLexes()
    ensures Lexer.Tokenize("sin(x) + 1") == Success([idSin0, open3, idX4, close5, opPlus7, one9])
  {
    var s := "sin(x) + 1";
    assert |s| == 10 && s[0] == 's' && s[1] == 'i' && s[2] == 'n' && s[3] == '(' && s[4] == 'x' && s[5] == ')' && s[6] == ' ' && s[7] == '+' && s[8] == ' ' && s[9] == '1';
    FunctionsScan0(s);
    ScansLex(s, 0, [idSin0, open3, idX4, close5, opPlus7, one9]);
    assert s[0..] == s;
  }

  lemma {:induction false} FunctionsScan9(s: string)
    requires |s| == 10 && s[9] == '1'
    ensures Scans(s, 9, [one9])
  {
    assert s[9..10] == "1";
    NextNumber(s, 9, 10);
    assert Scans(s, 10, []);
    ScansCons(s, 9, one9, 10, [], [one9]);
  }

  lemma {:induction false} FunctionsScan7(s: string)
    requires |s| == 10 && s[7] == '+' && s[8] == ' ' && s[9] == '1'
    ensures Scans(s, 7, [opPlus7, one9])
  {
    assert s[7..8] == "+";
    NextSingle(s, 7, Operator);
    FunctionsScan9(s);
    assert Blank(s, 8, 9);
    ScansCons(s, 7, opPlus7, 8, [one9], [opPlus7, one9]);
  }

  lemma {:induction false} FunctionsScan5(s: string)
    requires |s| == 10 && s[5] == ')' && s[6] == ' ' && s[7] == '+' && s[8] == ' ' && s[9] == '1'
    ensures Scans(s, 5, [close5, opPlus7, one9])
  {
    assert s[5..6] == ")";
    NextSingle(s, 5, RightBracket);
    FunctionsScan7(s);
    assert Blank(s, 6, 7);
    ScansCons(s, 5, close5, 6, [opPlus7, one9], [close5, opPlus7, one9]);
  }

  lemma {:induction false} FunctionsScan4(s: string)
    requires |s| == 10 && s[4] == 'x' && s[5] == ')' && s[6] == ' ' && s[7] == '+' && s[8] == ' ' && s[9] == '1'
    ensures Scans(s, 4, [idX4, close5, opPlus7, one9])
  {
    assert s[4..5] == "x";
    NextIdent(s, 4, 5);
    FunctionsScan5(s);
    ScansCons(s, 4, idX4, 5, [close5, opPlus7, one9], [idX4, close5, opPlus7, one9]);
  }

  lemma {:induction false} FunctionsScan3(s: string)
    requires |s| == 10 && s[3] == '(' && s[4] == 'x' && s[5] == ')' && s[6] == ' ' && s[7] == '+' && s[8] == ' ' && s[9] == '1'
    ensures Scans(s, 3, [open3, idX4, close5, opPlus7, one9])
  {
    assert s[3..4] == "(";
    NextSingle(s, 3, LeftBracket);
    FunctionsScan4(s);
    ScansCons(s, 3, open3, 4, [idX4, close5, opPlus7, one9], [open3, idX4, close5, opPlus7, one9]);
  }

  lemma {:induction false} FunctionsScan0(s: string)
    requires |s| == 10 && s[0] == 's' && s[1] == 'i' && s[2] == 'n' && s[3] == '(' && s[4] == 'x' && s[5] == ')' && s[6] == ' ' && s[7] == '+' && s[8] == ' ' && s[9] == '1'
    ensures Scans(s, 0, [idSin0, open3, idX4, close5, opPlus7, one9])
  {
    assert s[0..3] == "sin";
    NextIdent(s, 0, 3);
    FunctionsScan3(s);
    ScansCons(s, 0, idSin0, 3, [open3, idX4, close5, opPlus7, one9], [idSin0, open3, idX4, close5, opPlus7, one9]);
  }

  lemma {:induction false} FunctionsParse<F>(sin: F, cos: F)
    ensures Parse("sin(x) + 1", [idSin0, open3, idX4, close5, opPlus7, one9], Vars, Funcs(sin, cos))
      == Success(Parsed([sin0, open3, x4, close5, plus7, one9], [x4, sin0, one9, plus7]))
  {
    FunctionsRun(sin, cos);
    assert [x4, sin0, one9] + [plus7] == [x4, sin0, one9, plus7];
    ParseTo1("sin(x) + 1", [idSin0, open3, idX4, close5, opPlus7, one9], Vars, Funcs(sin, cos), Number, plus7, [x4, sin0, one9], [sin0, open3, x4, close5, plus7, one9]);
  }

  lemma {:induction false} FunctionsRendering()
    ensures Render.ToPostfixString([x4, sin0, one9, plus7]) == "RPN: [ x sin 1 + ]"
  {
    FunctionsWords();
    FunctionsTerminated();
  }

  lemma {:induction false} FunctionsWords()
    ensures Render.ShownAll([x4, sin0, one9, plus7]) == ["x", "sin", "1", "+"]
  {
  }

  lemma {:induction false} FunctionsTerminated()
    ensures Strings.Terminated(["x", "sin", "1", "+"], ' ') == "x sin 1 + "
  {
    TerminatedOne("+", ' ');
    assert ["1", "+"] == ["1"] + ["+"];
    TerminatedCons("1", ["+"], ' ');
    assert ["sin", "1", "+"] == ["sin"] + ["1", "+"];
    TerminatedCons("sin", ["1", "+"], ' ');
    assert ["x", "sin", "1", "+"] == ["x"] + ["sin", "1", "+"];
    TerminatedCons("x", ["sin", "1", "+"], ' ');
  }

  lemma {:induction false} FunctionsRun<F>(sin: F, cos: F)
    ensures Run(State(Start, [], [], []), [idSin0, open3, idX4, close5, opPlus7, one9], Vars, Funcs(sin, cos))
      == Success(State(Number, [plus7], [x4, sin0, one9], [sin0, open3, x4, close5, plus7, one9]))
  {
    FunctionsStep1(sin, cos);
    FunctionsStep2(sin, cos);
    FunctionsStep3(sin, cos);
    FunctionsStep4(sin, cos);
    FunctionsStep5(sin, cos);
    FunctionsStep6(sin, cos);
    Run6(State(Start, [], [], []),
         State(Function, [sin0], [], [sin0]),
         State(LeftBracket, [sin0, open3], [], [sin0, open3]),
         State(Variable, [sin0, open3], [x4], [sin0, open3, x4]),
         State(RightBracket, [], [x4, sin0], [sin0, open3, x4, close5]),
         State(BinaryOperator, [plus7], [x4, sin0], [sin0, open3, x4, close5, plus7]),
         State(Number, [plus7], [x4, sin0, one9], [sin0, open3, x4, close5, plus7, one9]),
         idSin0, open3, idX4, close5, opPlus7, one9, Vars, Funcs(sin, cos));
  }

  lemma {:induction false} FunctionsStep1<F>(sin: F, cos: F)
    ensures Step(State(Start, [], [], []), idSin0, Vars, Funcs(sin, cos))
      == Success(State(Function, [sin0], [], [sin0]))
  {
    Names(sin, cos);
    assert [] + [sin0] == [sin0];
    assert Reclassify(idSin0, Start, Vars, Funcs(sin, cos)) == Success(sin0);
    StepOpen(Start, [], [], [], idSin0, sin0, Vars, Funcs(sin, cos));
  }

  lemma {:induction false} FunctionsStep2<F>(sin: F, cos: F)
    ensures Step(State(Function, [sin0], [], [sin0]), open3, Vars, Funcs(sin, cos))
      == Success(State(LeftBracket, [sin0, open3], [], [sin0, open3]))
  {
    assert [sin0] + [open3] == [sin0, open3];
    StepOpen(Function, [sin0], [], [sin0], open3, open3, Vars, Funcs(sin, cos));
  }

  lemma {:induction false} FunctionsStep3<F>(sin: F, cos: F)
    ensures Step(State(LeftBracket, [sin0, open3], [], [sin0, open3]), idX4, Vars, Funcs(sin, cos))
      == Success(State(Variable, [sin0, open3], [x4], [sin0, open3, x4]))
  {
    Names(sin, cos);
    assert [] + [x4] == [x4];
    assert [sin0, open3] + [x4] == [sin0, open3, x4];
    assert Reclassify(idX4, LeftBracket, Vars, Funcs(sin, cos)) == Success(x4);
    StepOperand(LeftBracket, [sin0, open3], [], [sin0, open3], idX4, x4, Vars, Funcs(sin, cos));
  }

  lemma {:induction false} FunctionsStep4<F>(sin: F, cos: F)
    ensures Step(State(Variable, [sin0, open3], [x4], [sin0, open3, x4]), close5, Vars, Funcs(sin, cos))
      == Success(State(RightBracket, [], [x4, sin0], [sin0, open3, x4, close5]))
  {
    assert [x4] + [sin0] == [x4, sin0];
    assert [sin0, open3, x4] + [close5] == [sin0, open3, x4, close5];
    StepCloseCall(Variable, sin0, open3, [x4], [sin0, open3, x4], close5, Vars, Funcs(sin, cos));
  }

  lemma {:induction false} FunctionsStep5<F>(sin: F, cos: F)
    ensures Step(State(RightBracket, [], [x4, sin0], [sin0, open3, x4, close5]), opPlus7, Vars, Funcs(sin, cos))
      == Success(State(BinaryOperator, [plus7], [x4, sin0], [sin0, open3, x4, close5, plus7]))
  {
    assert [] + [plus7] == [plus7];
    assert [sin0, open3, x4, close5] + [plus7] == [sin0, open3, x4, close5, plus7];
    assert Reclassify(opPlus7, RightBracket, Vars, Funcs(sin, cos)) == Success(plus7);
    StepPushEmpty(RightBracket, [x4, sin0], [sin0, open3, x4, close5], opPlus7, plus7, Vars, Funcs(sin, cos));
  }

  lemma {:induction false} FunctionsStep6<F>(sin: F, cos: F)
    ensures Step(State(BinaryOperator, [plus7], [x4, sin0], [sin0, open3, x4, close5, plus7]), one9, Vars, Funcs(sin, cos))
      == Success(State(Number, [plus7], [x4, sin0, one9], [sin0, open3, x4, close5, plus7, one9]))
  {
    assert [x4, sin0] + [one9] == [x4, sin0, one9];
    assert [sin0, open3, x4, close5, plus7] + [one9] == [sin0, open3, x4, close5, plus7, one9];
    StepOperand(BinaryOperator, [plus7], [x4, sin0], [sin0, open3, x4, close5, plus7], one9, one9, Vars, Funcs(sin, cos));
  }

  /** The expression "- - x" of tests/test_expression.cpp:63-68 is constructed,
      and its postfix renders as "RPN: [ x u- u- ]". */
  lemma {:induction false} RightAssociativity(sin: Evaluator.RealFunction, cos: Evaluator.RealFunction)
    ensures Expressions.Build("- - x", Vars, Funcs(sin, cos))
      == Success(Expressions.Expression("- - x", [neg0, neg2, x4], [x4, neg2, neg0]))
    ensures Render.ToPostfixString([x4, neg2, neg0]) == "RPN: [ x u- u- ]"
  {
    RightAssociativityLexes();
    RightAssociativityParse(sin, cos);
    Built("- - x", [opMinus0, opMinus2, idX4], Vars, Funcs(sin, cos), [neg0, neg2, x4], [x4, neg2, neg0]);
    RightAssociativityRendering();
  }

  lemma {:induction false} RightAssociativityLexes()
    ensures Lexer.Tokenize("- - x") == Success([opMinus0, opMinus2, idX4])
  {
    var s := "- - x";
    assert |s| == 5 && s[0] == '-' && s[1] == ' ' && s[2] == '-' && s[3] == ' ' && s[4] == 'x';
    RightAssociativityScan0(s);
    ScansLex(s, 0, [opMinus0, opMinus2, idX4]);
    assert s[0..] == s;
  }

  lemma {:induction false} RightAssociativityScan4(s: string)
    requires |s| == 5 && s[4] == 'x'
    ensures Scans(s, 4, [idX4])
  {
    assert s[4..5] == "x";
    NextIdent(s, 4, 5);
    assert Scans(s, 5, []);
    ScansCons(s, 4, idX4, 5, [], [idX4]);
  }

  lemma {:induction false} RightAssociativityScan2(s: string)
    requires |s| == 5 && s[2] == '-' && s[3] == ' ' && s[4] == 'x'
    ensures Scans(s, 2, [opMinus2, idX4])
  {
    assert s[2..3] == "-";
    NextSingle(s, 2, Operator);
    RightAssociativityScan4(s);
    assert Blank(s, 3, 4);
    ScansCons(s, 2, opMinus2, 3, [idX4], [opMinus2, idX4]);
  }

  lemma {:induction false} RightAssociativityScan0(s: string)
    requires |s| == 5 && s[0] == '-' && s[1] == ' ' && s[2] == '-' && s[3] == ' ' && s[4] == 'x'
    ensures Scans(s, 0, [opMinus0, opMinus2, idX4])
  {
    assert s[0..1] == "-";
    NextSingle(s, 0, Operator);
    RightAssociativityScan2(s);
    assert Blank(s, 1, 2);
    ScansCons(s, 0, opMinus0, 1, [opMinus2, idX4], [opMinus0, opMinus2, idX4]);
  }

  lemma {:induction false} RightAssociativityParse<F>(sin: F, cos: F)
    ensures Parse("- - x", [opMinus0, opMinus2, idX4], Vars, Funcs(sin, cos))
      == Success(Parsed([neg0, neg2, x4], [x4, neg2, neg0]))
  {
    RightAssociativityRun(sin, cos);
    assert [x4] + [neg2, neg0] == [x4, neg2, neg0];
    ParseTo2("- - x", [opMinus0, opMinus2, idX4], Vars, Funcs(sin, cos), Variable, neg0, neg2, [x4], [neg0, neg2, x4]);
  }

  lemma {:induction false} RightAssociativityRendering()
    ensures Render.ToPostfixString([x4, neg2, neg0]) == "RPN: [ x u- u- ]"
  {
    RightAssociativityWords();
    RightAssociativityTerminated();
  }

  lemma {:induction false} RightAssociativityWords()
    ensures Render.ShownAll([x4, neg2, neg0]) == ["x", "u-", "u-"]
  {
    assert Render.Shown(neg2) == "u-";
    assert Render.Shown(neg0) == "u-";
  }

  lemma {:induction false} RightAssociativityTerminated()
    ensures Strings.Terminated(["x", "u-", "u-"], ' ') == "x u- u- "
  {
    TerminatedOne("u-", ' ');
    assert ["u-", "u-"] == ["u-"] + ["u-"];
    TerminatedCons("u-", ["u-"], ' ');
    assert ["x", "u-", "u-"] == ["x"] + ["u-", "u-"];
    TerminatedCons("x", ["u-", "u-"], ' ');
  }

  lemma {:induction false} RightAssociativityRun<F>(sin: F, cos: F)
    ensures Run(State(Start, [], [], []), [opMinus0, opMinus2, idX4], Vars, Funcs(sin, cos))
      == Success(State(Variable, [neg0, neg2], [x4], [neg0, neg2, x4]))
  {
    RightAssociativityStep1(sin, cos);
    RightAssociativityStep2(sin, cos);
    RightAssociativityStep3(sin, cos);
    Run3(State(Start, [], [], []),
         State(UnaryOperator, [neg0], [], [neg0]),
         State(UnaryOperator, [neg0, neg2], [], [neg0, neg2]),
         State(Variable, [neg0, neg2], [x4], [neg0, neg2, x4]),
         opMinus0, opMinus2, idX4, Vars, Funcs(sin, cos));
  }

  lemma {:induction false} RightAssociativityStep1<F>(sin: F, cos: F)
    ensures Step(State(Start, [], [], []), opMinus0, Vars, Funcs(sin, cos))
      == Success(State(UnaryOperator, [neg0], [], [neg0]))
  {
    assert [] + [neg0] == [neg0];
    assert Reclassify(opMinus0, Start, Vars, Funcs(sin, cos)) == Success(neg0);
    StepPushEmpty(Start, [], [], opMinus0, neg0, Vars, Funcs(sin, cos));
  }

  lemma {:induction false} RightAssociativityStep2<F>(sin: F, cos: F)
    ensures Step(State(UnaryOperator, [neg0], [], [neg0]), opMinus2, Vars, Funcs(sin, cos))
      == Success(State(UnaryOperator, [neg0, neg2], [], [neg0, neg2]))
  {
    assert [neg0] + [neg2] == [neg0, neg2];
    assert Reclassify(opMinus2, UnaryOperator, Vars, Funcs(sin, cos)) == Success(neg2);
    StepPush(UnaryOperator, [neg0], [], [neg0], opMinus2, neg2, Vars, Funcs(sin, cos));
  }

  lemma {:induction false} RightAssociativityStep3<F>(sin: F, cos: F)
    ensures Step(State(UnaryOperator, [neg0, neg2], [], [neg0, neg2]), idX4, Vars, Funcs(sin, cos))
      == Success(State(Variable, [neg0, neg2], [x4], [neg0, neg2, x4]))
  {
    Names(sin, cos);
    assert [] + [x4] == [x4];
    assert [neg0, neg2] + [x4] == [neg0, neg2, x4];
    assert Reclassify(idX4, UnaryOperator, Vars, Funcs(sin, cos)) == Success(x4);
    StepOperand(UnaryOperator, [neg0, neg2], [], [neg0, neg2], idX4, x4, Vars, Funcs(sin, cos));
  }

  // ----- the tokens: as the lexer reads them, and as the parser classifies them -----

  const ten0 := Lexeme(Number, "10", 0)
  const twenty5 := Lexeme(Number, "20", 5)
  const two8 := Lexeme(Number, "2", 8)
  const two10 := Lexeme(Number, "2", 10)
  const five0 := Lexeme(Number, "5", 0)
  const five5 := Lexeme(Number, "5", 5)
  const one9 := Lexeme(Number, "1", 9)
  const open0 := Lexeme(LeftBracket, "(", 0)
  const open3 := Lexeme(LeftBracket, "(", 3)
  const close5 := Lexeme(RightBracket, ")", 5)
  const close6 := Lexeme(RightBracket, ")", 6)
  const idX0 := Lexeme(Identifier, "x", 0)
  const idX1 := Lexeme(Identifier, "x", 1)
  const idX4 := Lexeme(Identifier, "x", 4)
  const idY4 := Lexeme(Identifier, "y", 4)
  const idY5 := Lexeme(Identifier, "y", 5)
  const idSin0 := Lexeme(Identifier, "sin", 0)
  const opPlus2 := Lexeme(Operator, "+", 2)
  const opPlus3 := Lexeme(Operator, "+", 3)
  const opPlus7 := Lexeme(Operator, "+", 7)
  const opTimes2 := Lexeme(Operator, "*", 2)
  const opTimes6 := Lexeme(Operator, "*", 6)
  const opTimes8 := Lexeme(Operator, "*", 8)
  const opMinus0 := Lexeme(Operator, "-", 0)
  const opMinus2 := Lexeme(Operator, "-", 2)
  const opMinus4 := Lexeme(Operator, "-", 4)
  const x0 := Lexeme(Variable, "x", 0)
  const x1 := Lexeme(Variable, "x", 1)
  const x4 := Lexeme(Variable, "x", 4)
  const y4 := Lexeme(Variable, "y", 4)
  const y5 := Lexeme(Variable, "y", 5)
  const sin0 := Lexeme(Function, "sin", 0)
  const plus2 := Lexeme(BinaryOperator, "+", 2)
  const plus3 := Lexeme(BinaryOperator, "+", 3)
  const plus7 := Lexeme(BinaryOperator, "+", 7)
  const times2 := Lexeme(BinaryOperator, "*", 2)
  const times6 := Lexeme(BinaryOperator, "*", 6)
  const times8 := Lexeme(BinaryOperator, "*", 8)
  const neg0 := Lexeme(UnaryOperator, "-", 0)
  const neg2 := Lexeme(UnaryOperator, "-", 2)
  const neg4 := Lexeme(UnaryOperator, "-", 4)
}
