/** What a successful parse guarantees: the reclassified tokens form a chain
    of the transition table from Start to End, every function name is
    followed by "(", and the emitted postfix is complete (it leaves exactly
    one value on the evaluation stack) and mentions only bound names and
    known operators. */
module ParserProofs {
  import opened Wrappers
  import opened Lexemes
  import opened Postfix
  import opened Parser
  import Lexer
  import VT = VarTables
  import FT = FunctionTables

  /** The category before token i of the reclassified sequence. */
  function PrevCat(infix: seq<Lexeme>, i: nat): Category
    requires i <= |infix|
  {
    if i == 0 then Start else infix[i - 1].cat
  }

  /** The grammar facts of the parse loop at token i: infix[i] is what
      reclassification makes of toks[i] after the category PrevCat(infix, i),
      it may follow that category, and a token right after a function name
      is "(". */
  predicate TraceStep<F>(toks: seq<Lexeme>, infix: seq<Lexeme>, i: nat, vars: VT.VarTable, funcs: FT.FunctionTable<F>)
    requires i < |toks| == |infix|
  {
    && Reclassify(toks[i], PrevCat(infix, i), vars, funcs) == Success(infix[i])
    && CanTransition(PrevCat(infix, i), infix[i].cat)
    && (PrevCat(infix, i) == Function ==> infix[i].text == "(")
  }

  /** The grammar trace of the parse loop: the facts hold at every token. */
  predicate Trace<F>(toks: seq<Lexeme>, infix: seq<Lexeme>, vars: VT.VarTable, funcs: FT.FunctionTable<F>) {
    |toks| == |infix| && forall i :: 0 <= i < |toks| ==> TraceStep(toks, infix, i, vars, funcs)
  }

  /** A trace, read at one index. */
  lemma {:induction false} TraceAt<F>(toks: seq<Lexeme>, infix: seq<Lexeme>, vars: VT.VarTable, funcs: FT.FunctionTable<F>, i: nat)
    requires Trace(toks, infix, vars, funcs)
    requires i < |toks|
    ensures Reclassify(toks[i], PrevCat(infix, i), vars, funcs) == Success(infix[i])
    ensures CanTransition(PrevCat(infix, i), infix[i].cat)
    ensures PrevCat(infix, i) == Function ==> infix[i].text == "("
  {
    assert TraceStep(toks, infix, i, vars, funcs);
  }

  /** The grammar facts the loop keeps about the tokens `done` read so far. */
  predicate GrammarSoFar<F>(st: State, done: seq<Lexeme>, vars: VT.VarTable, funcs: FT.FunctionTable<F>) {
    && st.prev == PrevCat(st.infix, |st.infix|)
    && Trace(done, st.infix, vars, funcs)
  }

  /** One more token keeps the grammar facts, given what Step promises. */
  lemma {:induction false} GrammarExtend<F>(st: State, st': State, done: seq<Lexeme>, tok: Lexeme, vars: VT.VarTable, funcs: FT.FunctionTable<F>)
    requires GrammarSoFar(st, done, vars, funcs)
    requires |st'.infix| == |st.infix| + 1
    requires st'.infix[..|st.infix|] == st.infix
    requires st'.prev == st'.infix[|st.infix|].cat
    requires Reclassify(tok, st.prev, vars, funcs) == Success(st'.infix[|st.infix|])
    requires CanTransition(st.prev, st'.prev)
    requires st.prev == Function ==> st'.infix[|st.infix|].text == "("
    ensures GrammarSoFar(st', done + [tok], vars, funcs)
  {
    var done' := done + [tok];
    forall i | 0 <= i < |done'|
      ensures TraceStep(done', st'.infix, i, vars, funcs)
    {
      if i < |done| {
        assert TraceStep(done, st.infix, i, vars, funcs);
        assert done'[i] == done[i];
        assert st'.infix[i] == st.infix[i];
        assert PrevCat(st'.infix, i) == PrevCat(st.infix, i);
      } else {
        assert PrevCat(st'.infix, i) == st.prev;
      }
    }
  }

  lemma {:induction false} StepGrammar<F>(st: State, done: seq<Lexeme>, tok: Lexeme, vars: VT.VarTable, funcs: FT.FunctionTable<F>)
    requires GrammarSoFar(st, done, vars, funcs)
    requires Step(st, tok, vars, funcs).Success?
    ensures GrammarSoFar(Step(st, tok, vars, funcs).value, done + [tok], vars, funcs)
  {
    var st' := Step(st, tok, vars, funcs).value;
    if st.prev == Function {
      TableShape(Function, st'.prev);
    }
    GrammarExtend(st, st', done, tok, vars, funcs);
  }

  /** A successful run past one token: the state after the first step
      keeps the grammar facts, and the run goes on from there. */
  lemma {:induction false} RunFirst<F>(st: State, done: seq<Lexeme>, toks: seq<Lexeme>, vars: VT.VarTable, funcs: FT.FunctionTable<F>) returns (next: State)
    requires GrammarSoFar(st, done, vars, funcs)
    requires toks != [] && Run(st, toks, vars, funcs).Success?
    ensures GrammarSoFar(next, done + [toks[0]], vars, funcs)
    ensures Run(st, toks, vars, funcs) == Run(next, toks[1..], vars, funcs)
  {
    next := Step(st, toks[0], vars, funcs).value;
    StepGrammar(st, done, toks[0], vars, funcs);
  }

  /** Moving the first token of the rest onto the tokens read. */
  lemma {:induction false} ShiftFirst<T>(done: seq<T>, toks: seq<T>)
    requires toks != []
    ensures (done + [toks[0]]) + toks[1..] == done + toks
  {
  }

  lemma {:induction false} RunGrammar<F>(st: State, done: seq<Lexeme>, toks: seq<Lexeme>, vars: VT.VarTable, funcs: FT.FunctionTable<F>)
    requires GrammarSoFar(st, done, vars, funcs)
    requires Run(st, toks, vars, funcs).Success?
    ensures GrammarSoFar(Run(st, toks, vars, funcs).value, done + toks, vars, funcs)
    decreases |toks|
  {
    if toks == [] {
      assert done + toks == done;
    } else {
      var next := RunFirst(st, done, toks, vars, funcs);
      ShiftFirst(done, toks);
      RunGrammar(next, done + [toks[0]], toks[1..], vars, funcs);
    }
  }

  /** A trace that may end (End may follow its last category) is not empty
      and its last category may be followed by End. */
  lemma {:induction false} TraceEnds<F>(toks: seq<Lexeme>, infix: seq<Lexeme>, vars: VT.VarTable, funcs: FT.FunctionTable<F>)
    requires Trace(toks, infix, vars, funcs)
    requires CanTransition(PrevCat(infix, |infix|), End)
    ensures |infix| == |toks| > 0
    ensures CanTransition(infix[|toks| - 1].cat, End)
  {
    TableShape(Start, End);
  }

  /** A trace read at every index: each token is reclassified in context
      and may follow the category before it. */
  lemma {:induction false} TraceSteps<F>(toks: seq<Lexeme>, infix: seq<Lexeme>, vars: VT.VarTable, funcs: FT.FunctionTable<F>)
    requires Trace(toks, infix, vars, funcs)
    ensures forall i :: 0 <= i < |toks| ==> Reclassify(toks[i], PrevCat(infix, i), vars, funcs) == Success(infix[i])
    ensures forall i :: 0 <= i < |toks| ==> CanTransition(PrevCat(infix, i), infix[i].cat)
  {
    forall i | 0 <= i < |toks|
      ensures Reclassify(toks[i], PrevCat(infix, i), vars, funcs) == Success(infix[i])
      ensures CanTransition(PrevCat(infix, i), infix[i].cat)
    {
      TraceAt(toks, infix, vars, funcs, i);
    }
  }

  /** In a trace that may end, every function name has a "(" right after it. */
  lemma {:induction false} TraceParens<F>(toks: seq<Lexeme>, infix: seq<Lexeme>, vars: VT.VarTable, funcs: FT.FunctionTable<F>)
    requires Trace(toks, infix, vars, funcs)
    requires CanTransition(PrevCat(infix, |infix|), End)
    ensures forall i :: 0 <= i < |toks| && infix[i].cat == Function ==> i + 1 < |toks| && infix[i + 1].text == "("
  {
    TableShape(Function, End);
    forall i | 0 <= i < |toks| && infix[i].cat == Function
      ensures i + 1 < |toks| && infix[i + 1].text == "("
    {
      if i + 1 < |toks| {
        TraceAt(toks, infix, vars, funcs, i + 1);
      }
    }
  }

  /** The grammar check of parse: a successful parse reclassified every token
      in context, each category may follow the previous one (Start before the
      first), End may follow the last, a function is always followed by "(",
      and an empty token sequence is never accepted. */
  lemma {:induction false} ParseChecksGrammar<F>(source: string, toks: seq<Lexeme>, vars: VT.VarTable, funcs: FT.FunctionTable<F>)
    requires Parse(source, toks, vars, funcs).Success?
    ensures var p := Parse(source, toks, vars, funcs).value;
      && |p.infix| == |toks| > 0
      && (forall i :: 0 <= i < |toks| ==> Reclassify(toks[i], PrevCat(p.infix, i), vars, funcs) == Success(p.infix[i]))
      && (forall i :: 0 <= i < |toks| ==> CanTransition(PrevCat(p.infix, i), p.infix[i].cat))
      && CanTransition(p.infix[|toks| - 1].cat, End)
      && forall i :: 0 <= i < |toks| && p.infix[i].cat == Function ==> i + 1 < |toks| && p.infix[i + 1].text == "("
  {
    var init := State(Start, [], [], []);
    RunGrammar(init, [], toks, vars, funcs);
    var st := Run(init, toks, vars, funcs).value;
    assert [] + toks == toks;
    assert Finish(st, |source|).Success?;
    assert Parse(source, toks, vars, funcs).value.infix == st.infix;
    TraceEnds(toks, st.infix, vars, funcs);
    TraceSteps(toks, st.infix, vars, funcs);
    TraceParens(toks, st.infix, vars, funcs);
  }

  /** No reclassified token of a successful parse is left an Identifier or an
      Operator, or is a Separator. */
  lemma {:induction false} ParsedCategories<F>(source: string, toks: seq<Lexeme>, vars: VT.VarTable, funcs: FT.FunctionTable<F>)
    requires Parse(source, toks, vars, funcs).Success?
    ensures var p := Parse(source, toks, vars, funcs).value;
      forall i :: 0 <= i < |p.infix| ==>
        p.infix[i].cat != Identifier && p.infix[i].cat != Operator && p.infix[i].cat != Separator
  {
    var p := Parse(source, toks, vars, funcs).value;
    ParseChecksGrammar(source, toks, vars, funcs);
    forall i | 0 <= i < |p.infix|
      ensures p.infix[i].cat != Identifier && p.infix[i].cat != Operator && p.infix[i].cat != Separator
    {
      NoTransitionInto(PrevCat(p.infix, i), p.infix[i].cat);
    }
  }

  /** No category may be followed by an Identifier, an Operator or a
      Separator: the table has no such column. */
  lemma {:induction false} NoTransitionInto(from: Category, to: Category)
    requires CanTransition(from, to)
    ensures to != Identifier && to != Operator && to != Separator
  {
  }

  // ----- soundness of the shunting-yard output -----

  /** The categories the operator stack can hold. */
  predicate StackCategory(c: Category) {
    c == LeftBracket || c == Function || c == BinaryOperator || c == UnaryOperator
  }

  /** A function on the stack is either the token just read, or sits directly
      below its opening bracket. */
  predicate FunctionsOpen(stack: seq<Lexeme>, prev: Category) {
    forall i {:trigger stack[i]} :: 0 <= i < |stack| && stack[i].cat == Function ==>
      (i == |stack| - 1 && prev == Function) || (i + 1 < |stack| && stack[i + 1].cat == LeftBracket)
  }

  /** Unless a function name was just read, a stacked function has its
      opening bracket right above it. */
  lemma {:induction false} BracketAboveFunction(stack: seq<Lexeme>, prev: Category, j: int)
    ensures FunctionsOpen(stack, prev) && prev != Function && 0 <= j < |stack| && stack[j].cat == Function ==>
              j + 1 < |stack| && stack[j + 1].cat == LeftBracket
  {
  }

  /** Unless a function name was just read, no function sits above the
      topmost opening bracket: everything there is an operator. */
  lemma {:induction false} OperatorsAbove<F>(stack: seq<Lexeme>, prev: Category, k: nat, vars: VT.VarTable, funcs: FT.FunctionTable<F>)
    requires StackWell(stack, vars, funcs) && FunctionsOpen(stack, prev) && prev != Function
    requires forall j :: k <= j < |stack| ==> stack[j].cat != LeftBracket
    ensures forall j :: k <= j < |stack| ==> stack[j].cat == BinaryOperator || stack[j].cat == UnaryOperator
  {
    forall j | k <= j < |stack|
      ensures stack[j].cat == BinaryOperator || stack[j].cat == UnaryOperator
    {
      BracketAboveFunction(stack, prev, j);
    }
  }

  /** What the operator loop may pop past: Pops never holds for an opening
      bracket on top, and holds for a unary operator only below a function. */
  lemma {:induction false} PopsShape(top: Lexeme, cur: Lexeme)
    requires cur.cat == BinaryOperator || cur.cat == UnaryOperator
    requires Pops(top, cur)
    ensures top.cat != LeftBracket
    ensures cur.cat == UnaryOperator ==> top.cat == Function
  {
  }

  /** Every stacked token has a stack category, and all but the brackets are
      evaluable. */
  predicate StackWell<F>(stack: seq<Lexeme>, vars: VT.VarTable, funcs: FT.FunctionTable<F>) {
    forall i :: 0 <= i < |stack| ==>
      StackCategory(stack[i].cat) && (stack[i].cat != LeftBracket ==> Evaluable(stack[i], vars, funcs))
  }

  /** The invariant of the parse loop, on its parts: the output replays to one
      value per pending binary operator on the stack, plus one when an operand
      has just been completed; everything emitted or stacked is evaluable. */
  predicate SoundParts<F>(prev: Category, stack: seq<Lexeme>, out: seq<Lexeme>, vars: VT.VarTable, funcs: FT.FunctionTable<F>) {
    && Replay(0, out) == Some(Binaries(stack) + (if OperandComplete(prev) then 1 else 0))
    && AllEvaluable(out, vars, funcs)
    && StackWell(stack, vars, funcs)
    && FunctionsOpen(stack, prev)
  }

  predicate Sound<F>(st: State, vars: VT.VarTable, funcs: FT.FunctionTable<F>) {
    SoundParts(st.prev, st.stack, st.output, vars, funcs)
  }

  /** Emitting one operator: a binary one consumes the extra value it was
      counted for. */
  lemma {:induction false} EmitOperator(out: seq<Lexeme>, t: Lexeme, b: nat)
    requires t.cat == BinaryOperator || t.cat == UnaryOperator
    requires Replay(0, out) == Some(b + (if t.cat == BinaryOperator then 1 else 0) + 1)
    ensures Replay(0, out + [t]) == Some(b + 1)
  {
    ReplayAppend(0, out, [t]);
    ReplayOperator(b + (if t.cat == BinaryOperator then 1 else 0) + 1, t);
  }

  /** Emitting the operators above position k keeps the output one value
      ahead of the binary operators still stacked. */
  lemma {:induction false} PopOperators(out: seq<Lexeme>, stack: seq<Lexeme>, k: nat)
    requires k <= |stack|
    requires forall j :: k <= j < |stack| ==> stack[j].cat == BinaryOperator || stack[j].cat == UnaryOperator
    requires Replay(0, out) == Some(Binaries(stack) + 1)
    ensures Replay(0, out + Reverse(stack[k..])) == Some(Binaries(stack[..k]) + 1)
    decreases |stack| - k
  {
    if k == |stack| {
      assert stack[k..] == [];
      assert out + Reverse(stack[k..]) == out;
      assert stack[..k] == stack;
    } else {
      var n := |stack| - 1;
      var t := stack[n];
      EmitOperator(out, t, Binaries(stack[..n]));
      PopOperators(out + [t], stack[..n], k);
      PopOne(stack, k, out);
    }
  }

  /** Appending evaluable tokens, in stack order, to an evaluable output. */
  lemma {:induction false} EmitEvaluable<F>(out: seq<Lexeme>, popped: seq<Lexeme>, vars: VT.VarTable, funcs: FT.FunctionTable<F>)
    requires AllEvaluable(out, vars, funcs)
    requires AllEvaluable(popped, vars, funcs)
    ensures AllEvaluable(out + Reverse(popped), vars, funcs)
  {
    forall i | |out| <= i < |out| + |popped|
      ensures Evaluable((out + Reverse(popped))[i], vars, funcs)
    {
      ReverseIndex(popped, i - |out|);
    }
  }

  /** The categories and texts a reclassified lexer token can have. */
  lemma {:induction false} ReclassifiedShape<F>(tok: Lexeme, prev: Category, vars: VT.VarTable, funcs: FT.FunctionTable<F>)
    requires Lexer.WellFormed(tok)
    requires Reclassify(tok, prev, vars, funcs).Success?
    ensures var l := Reclassify(tok, prev, vars, funcs).value;
      && (l.cat == Number || l.cat == Variable || l.cat == Function || l.cat == LeftBracket
          || l.cat == RightBracket || l.cat == Separator || l.cat == UnaryOperator || l.cat == BinaryOperator)
      && (l.cat == LeftBracket || l.cat == RightBracket ==> |l.text| == 1)
      && (l.cat != LeftBracket ==> Evaluable(l, vars, funcs) || l.cat == RightBracket || l.cat == Separator)
  {
    var l := Reclassify(tok, prev, vars, funcs).value;
    ReclassifyCases(tok, prev, vars, funcs);
    if tok.cat == Operator {
      assert tok.text == [tok.text[0]];
    }
  }

  /** An operand is emitted at once. */
  lemma {:induction false} OperandSound<F>(prev: Category, stack: seq<Lexeme>, out: seq<Lexeme>, l: Lexeme, vars: VT.VarTable, funcs: FT.FunctionTable<F>)
    requires SoundParts(prev, stack, out, vars, funcs)
    requires l.cat == Number || l.cat == Variable
    requires Evaluable(l, vars, funcs)
    requires !OperandComplete(prev) && prev != Function
    ensures SoundParts(l.cat, stack, out + [l], vars, funcs)
  {
    ReplayAppend(0, out, [l]);
    assert [l][1..] == [];
  }

  /** An opening bracket or a function name is pushed. */
  lemma {:induction false} OpenSound<F>(prev: Category, stack: seq<Lexeme>, out: seq<Lexeme>, l: Lexeme, vars: VT.VarTable, funcs: FT.FunctionTable<F>)
    requires SoundParts(prev, stack, out, vars, funcs)
    requires l.cat == LeftBracket || (l.cat == Function && Evaluable(l, vars, funcs))
    requires !OperandComplete(prev)
    requires prev == Function ==> l.cat == LeftBracket
    ensures SoundParts(l.cat, stack + [l], out, vars, funcs)
  {
    BinariesAppend(stack, [l]);
    assert Binaries([l]) == 0 by {
      assert [l][..0] == [];
    }
    var s' := stack + [l];
    forall i | 0 <= i < |s'| && s'[i].cat == Function
      ensures (i == |s'| - 1 && l.cat == Function) || (i + 1 < |s'| && s'[i + 1].cat == LeftBracket)
    {
      if i < |stack| {
        assert s'[i] == stack[i];
        assert (i == |stack| - 1 && prev == Function) || (i + 1 < |stack| && stack[i + 1].cat == LeftBracket);
        if i + 1 < |stack| {
          assert s'[i + 1] == stack[i + 1];
        } else {
          assert s'[i + 1] == l;
        }
      }
    }
  }

  /** What the operator loop pops: never an opening bracket, and for a unary
      operator only function names. */
  lemma {:induction false} PushOperatorPops(stack: seq<Lexeme>, out: seq<Lexeme>, l: Lexeme)
    requires l.cat == BinaryOperator || l.cat == UnaryOperator
    ensures var (stack', out') := PushOperator(stack, out, l);
      var k := |stack'| - 1;
      && k <= |stack|
      && stack' == stack[..k] + [l]
      && out' == out + Reverse(stack[k..])
      && forall j :: k <= j < |stack| ==>
           stack[j].cat != LeftBracket && (l.cat == UnaryOperator ==> stack[j].cat == Function)
  {
    var (stack', out') := PushOperator(stack, out, l);
    var k := |stack'| - 1;
    forall j | k <= j < |stack|
      ensures stack[j].cat != LeftBracket && (l.cat == UnaryOperator ==> stack[j].cat == Function)
    {
      PopsShape(stack[j], l);
    }
  }

  /** Pushing an operator after emitting the operators above position k,
      none of them a bracket or (unless it is the token just read) a function. */
  lemma {:induction false} PushSound<F>(prev: Category, stack: seq<Lexeme>, out: seq<Lexeme>, l: Lexeme, k: nat, vars: VT.VarTable, funcs: FT.FunctionTable<F>)
    requires SoundParts(prev, stack, out, vars, funcs)
    requires (l.cat == BinaryOperator && OperandComplete(prev))
          || (l.cat == UnaryOperator && !OperandComplete(prev) && prev != Function)
    requires Evaluable(l, vars, funcs)
    requires k <= |stack|
    requires forall j :: k <= j < |stack| ==> stack[j].cat != LeftBracket
    requires l.cat == UnaryOperator ==> forall j :: k <= j < |stack| ==> stack[j].cat == Function
    ensures SoundParts(l.cat, stack[..k] + [l], out + Reverse(stack[k..]), vars, funcs)
  {
    if l.cat == UnaryOperator {
      BracketAboveFunction(stack, prev, |stack| - 1);
      assert k == |stack|;
    }
    OperatorsAbove(stack, prev, k, vars, funcs);
    PushReplay(stack, out, l, k);
    SuffixEvaluable(stack, k, vars, funcs);
    EmitEvaluable(out, stack[k..], vars, funcs);
    PushStack(prev, stack, l, k, vars, funcs);
  }

  /** The output count after popping the operators above k and pushing an
      operator: a binary one takes the place of the completed operand. */
  lemma {:induction false} PushReplay(stack: seq<Lexeme>, out: seq<Lexeme>, l: Lexeme, k: nat)
    requires k <= |stack|
    requires l.cat == BinaryOperator || (l.cat == UnaryOperator && k == |stack|)
    requires forall j :: k <= j < |stack| ==> stack[j].cat == BinaryOperator || stack[j].cat == UnaryOperator
    requires Replay(0, out) == Some(Binaries(stack) + (if l.cat == BinaryOperator then 1 else 0))
    ensures Replay(0, out + Reverse(stack[k..])) == Some(Binaries(stack[..k] + [l]))
  {
    if l.cat == BinaryOperator {
      PopOperators(out, stack, k);
    } else {
      assert stack[k..] == [];
      assert out + Reverse(stack[k..]) == out;
      assert stack[..k] == stack;
    }
    BinariesAppend(stack[..k], [l]);
    assert [l][..0] == [];
  }

  /** Stacked operators are evaluable. */
  lemma {:induction false} SuffixEvaluable<F>(stack: seq<Lexeme>, k: nat, vars: VT.VarTable, funcs: FT.FunctionTable<F>)
    requires StackWell(stack, vars, funcs) && k <= |stack|
    requires forall j :: k <= j < |stack| ==> stack[j].cat != LeftBracket
    ensures AllEvaluable(stack[k..], vars, funcs)
  {
    forall i | 0 <= i < |stack| - k
      ensures Evaluable(stack[k..][i], vars, funcs)
    {
      assert stack[k..][i] == stack[k + i];
    }
  }

  /** The stack after pushing an operator over the kept part keeps its
      shape: no function above its bracket was popped. */
  lemma {:induction false} PushStack<F>(prev: Category, stack: seq<Lexeme>, l: Lexeme, k: nat, vars: VT.VarTable, funcs: FT.FunctionTable<F>)
    requires StackWell(stack, vars, funcs) && FunctionsOpen(stack, prev) && prev != Function
    requires (l.cat == BinaryOperator || l.cat == UnaryOperator) && Evaluable(l, vars, funcs)
    requires k <= |stack|
    requires forall j :: k <= j < |stack| ==> stack[j].cat == BinaryOperator || stack[j].cat == UnaryOperator
    ensures StackWell(stack[..k] + [l], vars, funcs)
    ensures FunctionsOpen(stack[..k] + [l], l.cat)
  {
    var s' := stack[..k] + [l];
    forall i | 0 <= i < |s'| && s'[i].cat == Function
      ensures i + 1 < |s'| && s'[i + 1].cat == LeftBracket
    {
      assert s'[i] == stack[i];
      BracketAboveFunction(stack, prev, i);
      assert s'[i + 1] == stack[i + 1];
    }
  }

  /** Popping down to the topmost opening bracket, removing it and emitting
      `abs` for a closing `|` leaves exactly one value more than the binary
      operators below the bracket. */
  lemma {:induction false} CloseEmits<F>(prev: Category, stack: seq<Lexeme>, out: seq<Lexeme>, k: nat, abs: seq<Lexeme>, vars: VT.VarTable, funcs: FT.FunctionTable<F>)
    requires SoundParts(prev, stack, out, vars, funcs)
    requires OperandComplete(prev)
    requires k < |stack| && stack[k].cat == LeftBracket
    requires forall j :: k < j < |stack| ==> stack[j].cat != LeftBracket
    requires abs == [] || abs == [AbsToken(abs[0].pos)]
    ensures Replay(0, out + Reverse(stack[k + 1..]) + abs) == Some(Binaries(stack[..k]) + 1)
    ensures AllEvaluable(out + Reverse(stack[k + 1..]) + abs, vars, funcs)
  {
    OperatorsAbove(stack, prev, k + 1, vars, funcs);
    CloseReplay(out, stack, k, abs);
    CloseEvaluable(out, stack, k, abs, vars, funcs);
  }

  /** The depth part of CloseEmits. */
  lemma {:induction false} CloseReplay(out: seq<Lexeme>, stack: seq<Lexeme>, k: nat, abs: seq<Lexeme>)
    requires k < |stack| && stack[k].cat == LeftBracket
    requires forall j :: k + 1 <= j < |stack| ==> stack[j].cat == BinaryOperator || stack[j].cat == UnaryOperator
    requires Replay(0, out) == Some(Binaries(stack) + 1)
    requires abs == [] || abs == [AbsToken(abs[0].pos)]
    ensures Replay(0, out + Reverse(stack[k + 1..]) + abs) == Some(Binaries(stack[..k]) + 1)
  {
    var popped := out + Reverse(stack[k + 1..]);
    var d := Binaries(stack[..k]) + 1;
    PopToBracket(out, stack, k);
    assert Replay(0, popped) == Some(d);
    AbsReplay(popped, abs, d);
  }

  /** Popping the operators above an opening bracket leaves one value more
      than the binary operators below it. */
  lemma {:induction false} PopToBracket(out: seq<Lexeme>, stack: seq<Lexeme>, k: nat)
    requires k < |stack| && stack[k].cat == LeftBracket
    requires forall j :: k + 1 <= j < |stack| ==> stack[j].cat == BinaryOperator || stack[j].cat == UnaryOperator
    requires Replay(0, out) == Some(Binaries(stack) + 1)
    ensures Replay(0, out + Reverse(stack[k + 1..])) == Some(Binaries(stack[..k]) + 1)
  {
    PopOperators(out, stack, k + 1);
    BracketBinaries(stack, k);
  }

  /** An opening bracket adds no binary operator to the count. */
  lemma {:induction false} BracketBinaries(stack: seq<Lexeme>, k: nat)
    requires k < |stack| && stack[k].cat == LeftBracket
    ensures Binaries(stack[..k + 1]) == Binaries(stack[..k])
  {
    assert stack[..k + 1][..k] == stack[..k];
  }

  /** The `abs` a closing `|` emits keeps the operand count. */
  lemma {:induction false} AbsReplay(popped: seq<Lexeme>, abs: seq<Lexeme>, d: nat)
    requires d >= 1 && Replay(0, popped) == Some(d)
    requires abs == [] || abs == [AbsToken(abs[0].pos)]
    ensures Replay(0, popped + abs) == Some(d)
  {
    ReplayAppend(0, popped, abs);
    if abs != [] {
      ReplayOperator(d, abs[0]);
    } else {
      assert popped + abs == popped;
    }
  }

  /** The evaluability part of CloseEmits. */
  lemma {:induction false} CloseEvaluable<F>(out: seq<Lexeme>, stack: seq<Lexeme>, k: nat, abs: seq<Lexeme>, vars: VT.VarTable, funcs: FT.FunctionTable<F>)
    requires k < |stack|
    requires AllEvaluable(out, vars, funcs)
    requires forall j :: k + 1 <= j < |stack| ==> Evaluable(stack[j], vars, funcs)
    requires abs == [] || abs == [AbsToken(abs[0].pos)]
    ensures AllEvaluable(out + Reverse(stack[k + 1..]) + abs, vars, funcs)
  {
    var popped := stack[k + 1..];
    assert AllEvaluable(popped, vars, funcs) by {
      forall i | 0 <= i < |popped|
        ensures Evaluable(popped[i], vars, funcs)
      {
        assert popped[i] == stack[k + 1 + i];
      }
    }
    EmitEvaluable(out, popped, vars, funcs);
    var e := out + Reverse(popped);
    forall i | 0 <= i < |e + abs|
      ensures Evaluable((e + abs)[i], vars, funcs)
    {
      if i >= |e| {
        assert (e + abs)[i] == abs[0];
      } else {
        assert (e + abs)[i] == e[i];
      }
    }
  }

  /** After the bracket: a function name right below it is emitted too. */
  lemma {:induction false} CloseFunction<F>(prev: Category, stack: seq<Lexeme>, k: nat, emitted: seq<Lexeme>, vars: VT.VarTable, funcs: FT.FunctionTable<F>)
    requires StackWell(stack, vars, funcs) && FunctionsOpen(stack, prev) && prev != Function
    requires k < |stack| && stack[k].cat == LeftBracket
    requires Replay(0, emitted) == Some(Binaries(stack[..k]) + 1)
    requires AllEvaluable(emitted, vars, funcs)
    ensures k > 0 && stack[k - 1].cat == Function ==> SoundParts(RightBracket, stack[..k - 1], emitted + [stack[k - 1]], vars, funcs)
    ensures !(k > 0 && stack[k - 1].cat == Function) ==> SoundParts(RightBracket, stack[..k], emitted, vars, funcs)
  {
    if k > 0 && stack[k - 1].cat == Function {
      FunctionBelowBracket(prev, stack, k, emitted, vars, funcs);
    } else {
      PrefixWell(prev, stack, k, vars, funcs);
    }
  }

  /** The function case of CloseFunction: the function under the bracket is
      emitted and leaves the stack. */
  lemma {:induction false} FunctionBelowBracket<F>(prev: Category, stack: seq<Lexeme>, k: nat, emitted: seq<Lexeme>, vars: VT.VarTable, funcs: FT.FunctionTable<F>)
    requires StackWell(stack, vars, funcs) && FunctionsOpen(stack, prev) && prev != Function
    requires 0 < k < |stack| && stack[k - 1].cat == Function
    requires Replay(0, emitted) == Some(Binaries(stack[..k]) + 1)
    requires AllEvaluable(emitted, vars, funcs)
    ensures SoundParts(RightBracket, stack[..k - 1], emitted + [stack[k - 1]], vars, funcs)
  {
    BracketAboveFunction(stack, prev, k - 2);
    PrefixWell(prev, stack, k - 1, vars, funcs);
    EmitLast(stack[..k], emitted, vars, funcs);
    assert stack[..k][..k - 1] == stack[..k - 1];
  }

  /** Emitting the function on top of a stack prefix. */
  lemma {:induction false} EmitLast<F>(below: seq<Lexeme>, emitted: seq<Lexeme>, vars: VT.VarTable, funcs: FT.FunctionTable<F>)
    requires below != [] && below[|below| - 1].cat == Function && Evaluable(below[|below| - 1], vars, funcs)
    requires Replay(0, emitted) == Some(Binaries(below) + 1)
    requires AllEvaluable(emitted, vars, funcs)
    ensures Replay(0, emitted + [below[|below| - 1]]) == Some(Binaries(below[..|below| - 1]) + 1)
    ensures AllEvaluable(emitted + [below[|below| - 1]], vars, funcs)
  {
    var m := |below| - 1;
    var f := below[m];
    assert below == below[..m] + [f];
    EmitFunction(emitted, below[..m], f, vars, funcs);
  }

  /** A non-empty prefix is the prefix one shorter followed by its last element. */
  lemma {:induction false} LastSplit<T>(s: seq<T>, m: nat)
    requires 0 < m <= |s|
    ensures s[..m] == s[..m - 1] + [s[m - 1]]
  {
  }

  /** Cutting the stack below a point where no function waits for its
      bracket keeps its shape. */
  lemma {:induction false} PrefixWell<F>(prev: Category, stack: seq<Lexeme>, m: nat, vars: VT.VarTable, funcs: FT.FunctionTable<F>)
    requires StackWell(stack, vars, funcs) && FunctionsOpen(stack, prev) && prev != Function
    requires m <= |stack| && (m > 0 ==> stack[m - 1].cat != Function)
    ensures StackWell(stack[..m], vars, funcs) && FunctionsOpen(stack[..m], RightBracket)
  {
    var s' := stack[..m];
    forall i | 0 <= i < |s'| && s'[i].cat == Function
      ensures i + 1 < |s'| && s'[i + 1].cat == LeftBracket
    {
      assert s'[i] == stack[i];
      BracketAboveFunction(stack, prev, i);
      assert s'[i + 1] == stack[i + 1];
    }
  }

  /** Emitting a function whose bracket has closed: it maps its argument's
      value to one value, so the count is that of the stack below it. */
  lemma {:induction false} EmitFunction<F>(emitted: seq<Lexeme>, below: seq<Lexeme>, f: Lexeme, vars: VT.VarTable, funcs: FT.FunctionTable<F>)
    requires f.cat == Function && Evaluable(f, vars, funcs)
    requires Replay(0, emitted) == Some(Binaries(below + [f]) + 1)
    requires AllEvaluable(emitted, vars, funcs)
    ensures Replay(0, emitted + [f]) == Some(Binaries(below) + 1)
    ensures AllEvaluable(emitted + [f], vars, funcs)
  {
    var d := Binaries(below + [f]) + 1;
    assert (below + [f])[..|below|] == below;
    ReplayAppend(0, emitted, [f]);
    ReplayOperator(d, f);
    forall i | 0 <= i < |emitted| + 1
      ensures Evaluable((emitted + [f])[i], vars, funcs)
    {
      if i < |emitted| {
        assert (emitted + [f])[i] == emitted[i];
      }
    }
  }

  /** The shunting-yard action for a token that may follow `prev` keeps the
      invariant. */
  lemma {:induction false} ShuntSound<F>(prev: Category, stack: seq<Lexeme>, out: seq<Lexeme>, l: Lexeme, vars: VT.VarTable, funcs: FT.FunctionTable<F>)
    requires SoundParts(prev, stack, out, vars, funcs)
    requires CanTransition(prev, l.cat)
    requires l.cat != LeftBracket ==> Evaluable(l, vars, funcs) || l.cat == RightBracket || l.cat == Separator
    requires Shunt(stack, out, l).Success?
    ensures SoundParts(l.cat, Shunt(stack, out, l).value.0, Shunt(stack, out, l).value.1, vars, funcs)
  {
    if l.cat == Number || l.cat == Variable {
      OperandSound(prev, stack, out, l, vars, funcs);
    } else if l.cat == LeftBracket || l.cat == Function {
      OpenSound(prev, stack, out, l, vars, funcs);
    } else if l.cat == UnaryOperator || l.cat == BinaryOperator {
      PushOperatorSound(prev, stack, out, l, vars, funcs);
    } else if l.cat == RightBracket {
      CloseBracketSound(prev, stack, out, l, vars, funcs);
    }
  }

  /** The operator case of ShuntSound. */
  lemma {:induction false} PushOperatorSound<F>(prev: Category, stack: seq<Lexeme>, out: seq<Lexeme>, l: Lexeme, vars: VT.VarTable, funcs: FT.FunctionTable<F>)
    requires SoundParts(prev, stack, out, vars, funcs)
    requires l.cat == UnaryOperator || l.cat == BinaryOperator
    requires CanTransition(prev, l.cat) && Evaluable(l, vars, funcs)
    ensures SoundParts(l.cat, PushOperator(stack, out, l).0, PushOperator(stack, out, l).1, vars, funcs)
  {
    OperatorContext(prev, l.cat);
    PushOperatorPops(stack, out, l);
    var r := PushOperator(stack, out, l);
    var k := |r.0| - 1;
    PushSound(prev, stack, out, l, k, vars, funcs);
  }

  /** The table lets a binary operator follow only a complete operand, and a
      unary one only where an operand is awaited and no function waits. */
  lemma {:induction false} OperatorContext(prev: Category, cat: Category)
    requires cat == UnaryOperator || cat == BinaryOperator
    requires CanTransition(prev, cat)
    ensures (cat == BinaryOperator && OperandComplete(prev))
         || (cat == UnaryOperator && !OperandComplete(prev) && prev != Function)
  {
  }

  /** The closing-bracket case of ShuntSound. */
  lemma {:induction false} CloseBracketSound<F>(prev: Category, stack: seq<Lexeme>, out: seq<Lexeme>, l: Lexeme, vars: VT.VarTable, funcs: FT.FunctionTable<F>)
    requires SoundParts(prev, stack, out, vars, funcs)
    requires l.cat == RightBracket && CanTransition(prev, RightBracket)
    requires CloseBracket(stack, out, l).Success?
    ensures SoundParts(RightBracket, CloseBracket(stack, out, l).value.0, CloseBracket(stack, out, l).value.1, vars, funcs)
  {
    var k := TopLeft(stack);
    var abs := if Head(l.text) == '|' then [AbsToken(l.pos)] else [];
    CloseEmits(prev, stack, out, k, abs, vars, funcs);
    CloseFunction(prev, stack, k, out + Reverse(stack[k + 1..]) + abs, vars, funcs);
  }

  /** A successful step is the shunting-yard action on the reclassified token. */
  lemma {:induction false} StepShunts<F>(st: State, tok: Lexeme, vars: VT.VarTable, funcs: FT.FunctionTable<F>)
    requires Step(st, tok, vars, funcs).Success?
    ensures Reclassify(tok, st.prev, vars, funcs).Success?
    ensures var l := Reclassify(tok, st.prev, vars, funcs).value;
      && CanTransition(st.prev, l.cat)
      && Shunt(st.stack, st.output, l).Success?
      && Step(st, tok, vars, funcs).value.prev == l.cat
      && Step(st, tok, vars, funcs).value.stack == Shunt(st.stack, st.output, l).value.0
      && Step(st, tok, vars, funcs).value.output == Shunt(st.stack, st.output, l).value.1
  {
  }

  lemma {:induction false} StepSound<F>(st: State, tok: Lexeme, vars: VT.VarTable, funcs: FT.FunctionTable<F>)
    requires Sound(st, vars, funcs)
    requires Lexer.WellFormed(tok)
    requires Step(st, tok, vars, funcs).Success?
    ensures Sound(Step(st, tok, vars, funcs).value, vars, funcs)
  {
    StepShunts(st, tok, vars, funcs);
    ReclassifiedShape(tok, st.prev, vars, funcs);
    ShuntSound(st.prev, st.stack, st.output, Reclassify(tok, st.prev, vars, funcs).value, vars, funcs);
  }

  lemma {:induction false} RunSound<F>(st: State, toks: seq<Lexeme>, vars: VT.VarTable, funcs: FT.FunctionTable<F>)
    requires Sound(st, vars, funcs)
    requires forall i :: 0 <= i < |toks| ==> Lexer.WellFormed(toks[i])
    requires Run(st, toks, vars, funcs).Success?
    ensures Sound(Run(st, toks, vars, funcs).value, vars, funcs)
    decreases |toks|
  {
    if toks != [] {
      StepSound(st, toks[0], vars, funcs);
      RunSound(Step(st, toks[0], vars, funcs).value, toks[1..], vars, funcs);
    }
  }

  lemma {:induction false} FinishSound<F>(st: State, sourceLength: nat, vars: VT.VarTable, funcs: FT.FunctionTable<F>)
    requires Sound(st, vars, funcs)
    requires Finish(st, sourceLength).Success?
    ensures Complete(Finish(st, sourceLength).value)
    ensures AllEvaluable(Finish(st, sourceLength).value, vars, funcs)
  {
    TableShape(st.prev, End);
    assert st.stack[0..] == st.stack;
    PopOperators(st.output, st.stack, 0);
    EmitEvaluable(st.output, st.stack, vars, funcs);
  }

  /** The shunting-yard output of a successful parse over lexer tokens is a
      complete postfix expression: evaluating it never finds an operand
      missing, and leaves exactly one value; every name in it is bound and
      every operator is one the evaluator applies. */
  lemma {:induction false} ParseSound<F>(source: string, toks: seq<Lexeme>, vars: VT.VarTable, funcs: FT.FunctionTable<F>)
    requires forall i :: 0 <= i < |toks| ==> Lexer.WellFormed(toks[i])
    requires Parse(source, toks, vars, funcs).Success?
    ensures Complete(Parse(source, toks, vars, funcs).value.postfix)
    ensures AllEvaluable(Parse(source, toks, vars, funcs).value.postfix, vars, funcs)
  {
    var init := State(Start, [], [], []);
    RunSound(init, toks, vars, funcs);
    FinishSound(Run(init, toks, vars, funcs).value, |source|, vars, funcs);
  }
  /** The account a parse keeps of the tokens read so far: the stack never
      holds an operand, the output holds the operands read in reading order,
      and every operator read, plus one `abs` per closing bar, is on the
      stack or on the output. */
  predicate Accounted(st: State) {
    && Operands(st.stack) == []
    && Operands(st.output) == Operands(st.infix)
    && Operators(st.stack) + Operators(st.output) == Operators(st.infix) + Bars(st.infix)
  }

  lemma {:induction false} StepAccounted<F>(st: State, tok: Lexeme, vars: VT.VarTable, funcs: FT.FunctionTable<F>)
    requires Accounted(st)
    requires Step(st, tok, vars, funcs).Success?
    ensures Accounted(Step(st, tok, vars, funcs).value)
  {
    StepShunts(st, tok, vars, funcs);
    var l := Reclassify(tok, st.prev, vars, funcs).value;
    var next := Step(st, tok, vars, funcs).value;
    assert next.infix == st.infix + [l];
    ShuntKeeps(st.stack, st.output, l);
    ShuntAccounted(st, l, next);
  }

  /** The books after a shunting action on the reclassified token `l` that
      conserves what it moves. */
  lemma {:induction false} ShuntAccounted(st: State, l: Lexeme, next: State)
    requires Accounted(st) && Conserves(st.stack, st.output, l, next.stack, next.output)
    requires next.infix == st.infix + [l]
    ensures Accounted(next)
  {
    OperandsAppend(st.infix, [l]);
    OperatorsAppend(st.infix, [l]);
    BarsAppend(st.infix, [l]);
  }

  lemma {:induction false} RunAccounted<F>(st: State, toks: seq<Lexeme>, vars: VT.VarTable, funcs: FT.FunctionTable<F>)
    requires Accounted(st)
    requires Run(st, toks, vars, funcs).Success?
    ensures Accounted(Run(st, toks, vars, funcs).value)
    decreases |toks|
  {
    if toks != [] {
      StepAccounted(st, toks[0], vars, funcs);
      RunAccounted(Step(st, toks[0], vars, funcs).value, toks[1..], vars, funcs);
    }
  }

  /** The postfix of a successful parse holds exactly the operands of the
      reclassified tokens, in the same order, and exactly their operators,
      each once, together with one `abs` for every closing `|`. */
  lemma {:induction false} ParseAccounts<F>(source: string, toks: seq<Lexeme>, vars: VT.VarTable, funcs: FT.FunctionTable<F>)
    requires Parse(source, toks, vars, funcs).Success?
    ensures var p := Parse(source, toks, vars, funcs).value;
      && Operands(p.postfix) == Operands(p.infix)
      && Operators(p.postfix) == Operators(p.infix) + Bars(p.infix)
  {
    var init := State(Start, [], [], []);
    assert Accounted(init);
    RunAccounted(init, toks, vars, funcs);
    var st := Run(init, toks, vars, funcs).value;
    assert st.stack[0..] == st.stack && st.stack[..0] == [];
    MoveTop(st.stack, st.output, 0);
  }
}
