/** The Expression object end to end (libs/lib_expression/expression.cpp:24-29):
    the constructor tokenizes and parses against the tables it is given, and
    calculate evaluates the stored postfix. */
module Expressions {
  import opened Wrappers
  import opened Lexemes
  import opened Postfix
  import Lexer
  import Parser
  import ParserProofs
  import Evaluator
  import Render
  import Strings
  import VT = VarTables
  import FT = FunctionTables

  /** What the constructor can throw. */
  datatype BuildError = LexFailure(lexError: Lexer.LexError) | ParseFailure(parseError: Parser.ParseError)

  /** A constructed expression: the text, the reclassified infix tokens and
      the postfix sequence. */
  datatype Expression = Expression(source: string, infix: seq<Lexeme>, postfix: seq<Lexeme>)

  /** The infix side of a constructed expression: at least one token, the
      tokens' texts are the non-space characters of the text in order, and no
      token text holds a space. */
  predicate Renders(e: Expression) {
    && |e.infix| > 0
    && Lexer.Concat(e.infix) == Lexer.RemoveSpaces(e.source)
    && Render.SpaceFree(e.infix)
  }

  /** The postfix side of a constructed expression, against the tables it was
      built with: it replays to exactly one value and every name and operator
      in it is one the evaluator can apply. */
  predicate Runnable(e: Expression, vars: VT.VarTable, funcs: FT.FunctionTable<Evaluator.RealFunction>) {
    Complete(e.postfix) && AllEvaluable(e.postfix, vars, funcs)
  }

  /** The grammar of a constructed expression's infix side: every token may
      follow the one before it (Start before the first), End may follow the
      last, a function name is always followed by "(", reclassification left
      no bare identifier or operator, and there is no separator, since the
      table lets no category reach one. */
  predicate Grammatical(e: Expression)
    requires |e.infix| > 0
  {
    && (forall i :: 0 <= i < |e.infix| ==> CanTransition(ParserProofs.PrevCat(e.infix, i), e.infix[i].cat))
    && CanTransition(e.infix[|e.infix| - 1].cat, End)
    && (forall i :: 0 <= i < |e.infix| && e.infix[i].cat == Function ==> i + 1 < |e.infix| && e.infix[i + 1].text == "(")
    && forall i :: 0 <= i < |e.infix| ==>
         e.infix[i].cat != Identifier && e.infix[i].cat != Operator && e.infix[i].cat != Separator
  }

  /** The postfix side rearranges the infix side: the operands appear in the
      same order, and every operator and function name appears exactly once,
      together with one `abs` for every closing `|`. */
  predicate Rearranges(e: Expression) {
    && Operands(e.postfix) == Operands(e.infix)
    && Operators(e.postfix) == Operators(e.infix) + Parser.Bars(e.infix)
  }

  /** The constructor (expression.cpp:24-29): tokenize, then parse. */
  function Build(source: string, vars: VT.VarTable, funcs: FT.FunctionTable<Evaluator.RealFunction>): (r: Result<Expression, BuildError>)
    ensures Lexer.Tokenize(source).Failure? ==> r == Failure(LexFailure(Lexer.Tokenize(source).error))
    ensures r.Failure? && r.error.LexFailure? ==> Lexer.Tokenize(source).Failure?
    ensures r.Failure? && r.error.ParseFailure? ==>
      Lexer.Tokenize(source).Success? && Parser.Parse(source, Lexer.Tokenize(source).value, vars, funcs) == Failure(r.error.parseError)
    ensures r.Success? ==> r.value.source == source && Renders(r.value) && Runnable(r.value, vars, funcs)
    ensures r.Success? ==> |r.value.infix| > 0 && Grammatical(r.value)
    ensures r.Success? ==> Rearranges(r.value)
  {
    match Lexer.Tokenize(source)
    case Failure(e) => Failure(LexFailure(e))
    case Success(toks) =>
      match Parser.Parse(source, toks, vars, funcs)
      case Failure(e) => Failure(ParseFailure(e))
      case Success(p) =>
        ParsedSound(source, toks, vars, funcs);
        Success(Expression(source, p.infix, p.postfix))
  }

  /** The text of the exception a failed construction throws. */
  function BuildMessage(source: string, e: BuildError): string {
    match e
    case LexFailure(l) => Render.LexMessage(l)
    case ParseFailure(p) => Render.ParseMessage(source, p)
  }

  /** calculate (expression.cpp:31-134) on a constructed expression. */
  function Calculate(e: Expression, vars: VT.VarTable, funcs: FT.FunctionTable<Evaluator.RealFunction>,
                     pow: (real, real) -> real): Result<real, Evaluator.EvalError>
  {
    Evaluator.Calculate(e.postfix, vars, funcs, pow)
  }

  /** Tokens of the lexer carry no spaces. */
  lemma {:induction false} WellFormedSpaceFree(t: Lexeme)
    requires Lexer.WellFormed(t)
    ensures Strings.Free(t.text, ' ')
  {
  }

  /** What a successful tokenize and parse hand to the constructor. */
  lemma {:induction false} ParsedSound(source: string, toks: seq<Lexeme>, vars: VT.VarTable,
                                       funcs: FT.FunctionTable<Evaluator.RealFunction>)
    requires Lexer.Tokenize(source) == Success(toks)
    requires Parser.Parse(source, toks, vars, funcs).Success?
    ensures var p := Parser.Parse(source, toks, vars, funcs).value;
      var e := Expression(source, p.infix, p.postfix);
      Renders(e) && Runnable(e, vars, funcs) && Grammatical(e) && Rearranges(e)
  {
    var p := Parser.Parse(source, toks, vars, funcs).value;
    ParserProofs.ParseSound(source, toks, vars, funcs);
    ParserProofs.ParseAccounts(source, toks, vars, funcs);
    ParserProofs.ParseChecksGrammar(source, toks, vars, funcs);
    ParserProofs.ParsedCategories(source, toks, vars, funcs);
    forall i | 0 <= i < |toks|
      ensures p.infix[i].text == toks[i].text
    {
      var r := Parser.Reclassify(toks[i], ParserProofs.PrevCat(p.infix, i), vars, funcs);
      assert r == Success(p.infix[i]);
    }
    SameTexts(toks, p.infix);
    forall i | 0 <= i < |p.infix|
      ensures Strings.Free(p.infix[i].text, ' ')
    {
      WellFormedSpaceFree(toks[i]);
    }
  }

  lemma {:induction false} SameTexts(a: seq<Lexeme>, b: seq<Lexeme>)
    requires |a| == |b|
    requires forall i :: 0 <= i < |a| ==> a[i].text == b[i].text
    ensures Lexer.Concat(a) == Lexer.Concat(b)
  {
    if a != [] {
      SameTexts(a[1..], b[1..]);
    }
  }

  /** Calculating an expression whose postfix side holds against the tables
      never hits a missing operand, an unbound name, an unknown operator, an
      empty result or leftover operands: it yields a value, or fails on a
      division by zero. By Build, every constructed expression qualifies. */
  lemma {:induction false} RunnableCalculates(e: Expression, vars: VT.VarTable,
                                              funcs: FT.FunctionTable<Evaluator.RealFunction>, pow: (real, real) -> real)
    requires Runnable(e, vars, funcs)
    ensures var c := Calculate(e, vars, funcs, pow);
      c.Success? || c == Failure(Evaluator.DivisionByZero)
  {
    Evaluator.CompleteCalculates(e.postfix, vars, funcs, pow);
  }

  /** The infix rendering of an expression whose infix side holds has the
      same non-space characters as its text and splits at its spaces into the
      token texts. By Build, every constructed expression qualifies. */
  lemma {:induction false} InfixRendersSource(e: Expression)
    requires Renders(e)
    ensures Lexer.RemoveSpaces(Render.ToInfixString(e.infix)) == Lexer.RemoveSpaces(e.source)
    ensures Strings.Split(Render.ToInfixString(e.infix), ' ') == Render.Texts(e.infix)
  {
    Render.InfixContent(e.infix);
    Render.InfixWords(e.infix);
  }
}
