/** The text the expression engine shows: the caret error message
    (libs/lib_expression/expression.cpp:257-271), the exception texts, and the
    postfix and infix renderings (expression.cpp:136-171). */
module Render {
  import opened Lexemes
  import opened Strings
  import Lexer
  import Evaluator
  import Parser
  import VT = VarTables
  import FT = FunctionTables

  lemma {:induction false} RemoveSpacesFree(w: string)
    requires Free(w, ' ')
    ensures Lexer.RemoveSpaces(w) == w
  {
    Lexer.RemoveSpacesNone(w);
  }

  // ----- the caret error message -----

  /** n spaces. */
  function Spaces(n: nat): (r: string)
    ensures |r| == n
    ensures Free(r, '\n') && forall k :: 0 <= k < n ==> r[k] == ' '
  {
    if n == 0 then [] else " " + Spaces(n - 1)
  }

  /** create_error_message (expression.cpp:257-271): the message, the whole
      expression, and a caret under column pos, on three lines. */
  function CreateErrorMessage(source: string, pos: nat, message: string): string {
    message + "\n" + source + "\n" + Spaces(pos) + "^"
  }

  /** When neither the message nor the expression spans several lines, the
      error text has exactly three lines: the message, the expression, and a
      line whose only mark is the caret, at column pos. */
  lemma {:induction false} ErrorMessageLines(source: string, pos: nat, message: string)
    requires Free(message, '\n') && Free(source, '\n')
    ensures var lines := Split(CreateErrorMessage(source, pos, message), '\n');
      && lines == [message, source, Spaces(pos) + "^"]
      && |lines[2]| == pos + 1 && lines[2][pos] == '^'
      && forall k :: 0 <= k < pos ==> lines[2][k] == ' '
  {
    var caret := Spaces(pos) + "^";
    assert Free(caret, '\n');
    assert CreateErrorMessage(source, pos, message) == message + "\n" + (source + "\n" + caret);
    SplitCons(message, '\n', source + "\n" + caret);
    SplitCons(source, '\n', caret);
    SplitFree(caret, '\n');
  }

  // ----- exception texts -----

  function DigitChar(d: nat): (c: char)
    requires d < 10
    ensures IsDigit(c) && Evaluator.DigitValue(c) == d
  {
    ('0' as int + d) as char
  }

  /** std::to_string of a position: decimal digits, most significant first. */
  function NatToString(n: nat): (s: string)
    ensures |s| > 0 && Evaluator.AllDigits(s)
  {
    if n < 10 then [DigitChar(n)] else NatToString(n / 10) + [DigitChar(n % 10)]
  }

  /** Reading the digits back gives the number, and there is no leading zero. */
  lemma {:induction false} NatToStringValue(n: nat)
    ensures Evaluator.DigitsValue(NatToString(n)) == n
    ensures NatToString(n)[0] == '0' ==> n == 0
  {
    var s := NatToString(n);
    if n >= 10 {
      NatToStringValue(n / 10);
      assert s[..|s| - 1] == NatToString(n / 10);
      assert s[0] == NatToString(n / 10)[0];
    }
  }

  /** The message of the tokenizer's exception (expression.cpp:366-367). */
  function LexMessage(e: Lexer.LexError): string {
    "Unknown symbol at pos " + NatToString(e.pos)
  }

  /** The position the caret of a parse error points at. */
  function ParsePos(e: Parser.ParseError): nat {
    match e
    case UnknownIdentifier(_, pos) => pos
    case UnexpectedLexeme(_, pos) => pos
    case FunctionWithoutParen(_, pos) => pos
    case SeparatorOutside(_, pos) => pos
    case UnexpectedClose(_, pos) => pos
    case BracketMismatch(_, _, pos) => pos
    case MissingClose(pos) => pos
    case UnexpectedEnd(pos) => pos
  }

  /** The first line of a parse error: the texts parse throws
      (expression.cpp:384-545). */
  function ParseText(e: Parser.ParseError): string {
    match e
    case UnknownIdentifier(name, _) => "Unknown identifier: '" + name + "'"
    case UnexpectedLexeme(text, _) => "Syntax Error: Unexpected lexeme '" + text + "'"
    case FunctionWithoutParen(text, _) =>
      "Syntax Error: Functions must be called using '(', but found '" + text + "'"
    case SeparatorOutside(text, _) => "Separator outside of brackets: '" + text + "'"
    case UnexpectedClose(text, _) => "Mismatched brackets: unexpected '" + text + "'"
    case BracketMismatch(open, close, _) =>
      "Mismatched brackets: expected matching for '" + [open] + "', but found '" + [close] + "'"
    case MissingClose(_) => "Mismatched brackets: missing ')'"
    case UnexpectedEnd(_) => "Unexpected end of expression"
  }

  /** The full text of a parse exception. */
  function ParseMessage(source: string, e: Parser.ParseError): string {
    CreateErrorMessage(source, ParsePos(e), ParseText(e))
  }

  /** The message of a calculate exception (expression.cpp:31-134), with the
      texts of the table lookups (var_table.cpp:30, function_table.cpp:19).
      std::stod's own exception has no fixed text; its name stands in. */
  function EvalMessage(e: Evaluator.EvalError): string {
    match e
    case VariableLookup(VariableNotFound(name)) => "Variable not found: " + name
    case FunctionLookup(FunctionAlreadyExists(name)) => "Function already exists: " + name
    case FunctionLookup(FunctionNotFound(name)) => "Function not found: " + name
    case InvalidNumber(_) => "stod"
    case MissingArgument(name) => "Missing argument for function " + name
    case MissingUnaryOperand => "Missing operand for unary operator"
    case MissingBinaryOperand => "Missing operand for binary operator"
    case DivisionByZero => "Division by zero"
    case UnknownBinaryOperator(text) => "Unknown binary operator: " + text
    case UnexpectedToken(text) => "Unexpected token in RPN evaluation: " + text
    case EmptyResult => "Empty expression result"
    case ExtraOperands => "Error: Extra operands left in stack (invalid expression structure)"
  }

  // ----- postfix and infix renderings -----

  /** How to_postfix_string shows one token: unary minus as `u-`. */
  function Shown(t: Lexeme): string {
    if t.cat == UnaryOperator && t.text == "-" then "u-" else t.text
  }

  function ShownAll(post: seq<Lexeme>): (r: seq<string>)
    ensures |r| == |post| && forall i :: 0 <= i < |post| ==> r[i] == Shown(post[i])
  {
    if post == [] then [] else [Shown(post[0])] + ShownAll(post[1..])
  }

  function Texts(ts: seq<Lexeme>): (r: seq<string>)
    ensures |r| == |ts| && forall i :: 0 <= i < |ts| ==> r[i] == ts[i].text
  {
    if ts == [] then [] else [ts[0].text] + Texts(ts[1..])
  }

  /** to_postfix_string (expression.cpp:136-155). */
  function ToPostfixString(post: seq<Lexeme>): string {
    "RPN: [ " + Terminated(ShownAll(post), ' ') + "]"
  }

  /** to_infix_string (expression.cpp:157-171): every text followed by a
      space, and the final space dropped. */
  function ToInfixString(infix: seq<Lexeme>): string {
    var s := Terminated(Texts(infix), ' ');
    if s == [] then [] else s[..|s| - 1]
  }

  /** Space-free token texts. */
  predicate SpaceFree(ts: seq<Lexeme>) {
    forall i :: 0 <= i < |ts| ==> Free(ts[i].text, ' ')
  }

  /** The words of the postfix rendering are the header, the shown tokens in
      order, and the closing bracket. */
  lemma {:induction false} PostfixWords(post: seq<Lexeme>)
    requires SpaceFree(post)
    ensures Split(ToPostfixString(post), ' ') == ["RPN:", "["] + ShownAll(post) + ["]"]
  {
    var ws := ["RPN:", "["] + ShownAll(post) + ["]"];
    PostfixFree(post);
    PostfixJoin(post);
    SplitJoin(ws, ' ');
  }

  /** No word of the postfix rendering holds a space. */
  lemma {:induction false} PostfixFree(post: seq<Lexeme>)
    requires SpaceFree(post)
    ensures AllFree(["RPN:", "["] + ShownAll(post) + ["]"], ' ')
  {
    var sh := ShownAll(post);
    var ws := ["RPN:", "["] + sh + ["]"];
    forall i | 0 <= i < |sh|
      ensures Free(sh[i], ' ')
    {
      assert Free(post[i].text, ' ');
    }
    forall i | 0 <= i < |ws|
      ensures Free(ws[i], ' ')
    {
      if 2 <= i < |ws| - 1 {
        assert ws[i] == sh[i - 2];
      }
    }
  }

  /** The postfix rendering is its words joined by single spaces. */
  lemma {:induction false} PostfixJoin(post: seq<Lexeme>)
    ensures ToPostfixString(post) == Join(["RPN:", "["] + ShownAll(post) + ["]"], ' ')
  {
    var sh := ShownAll(post);
    var ws := ["RPN:", "["] + sh + ["]"];
    var tail := Terminated(sh, ' ') + "]";
    if sh == [] {
      assert tail == "]";
    } else {
      TerminatedJoin(sh, ' ', "]");
    }
    assert tail == Join(sh + ["]"], ' ');
    assert ws[1..] == ["["] + (sh + ["]"]);
    assert ws[1..][1..] == sh + ["]"];
    assert Join(ws[1..], ' ') == "[" + " " + tail;
  }

  /** The infix rendering splits at its spaces back into the token texts. */
  lemma {:induction false} InfixWords(infix: seq<Lexeme>)
    requires |infix| > 0 && SpaceFree(infix)
    ensures Split(ToInfixString(infix), ' ') == Texts(infix)
  {
    var ws := Texts(infix);
    TerminatedJoin(ws, ' ', "");
    assert ToInfixString(infix) == Join(ws, ' ');
    SplitJoin(ws, ' ');
  }

  /** Deleting the separating spaces of the infix rendering leaves the token
      texts run together. */
  lemma {:induction false} InfixContent(infix: seq<Lexeme>)
    requires SpaceFree(infix)
    ensures Lexer.RemoveSpaces(ToInfixString(infix)) == Lexer.Concat(infix)
  {
    if infix != [] {
      var ws := Texts(infix);
      TerminatedJoin(ws, ' ', "");
      JoinContent(infix);
    }
  }

  lemma {:induction false} JoinContent(infix: seq<Lexeme>)
    requires |infix| > 0 && SpaceFree(infix)
    ensures Lexer.RemoveSpaces(Join(Texts(infix), ' ')) == Lexer.Concat(infix)
  {
    var ws := Texts(infix);
    var head := infix[0].text;
    RemoveSpacesFree(head);
    if |infix| == 1 {
      assert Lexer.Concat(infix[1..]) == [];
      assert Lexer.Concat(infix) == head;
    } else {
      var tail := infix[1..];
      assert Texts(tail) == ws[1..];
      JoinContent(tail);
      var rest := Join(ws[1..], ' ');
      assert Join(ws, ' ') == (head + " ") + rest;
      SpaceDropped(head, rest);
      assert Lexer.Concat(infix) == head + Lexer.Concat(tail);
    }
  }

  /** A space between two pieces disappears when spaces are removed. */
  lemma {:induction false} SpaceDropped(a: string, b: string)
    ensures Lexer.RemoveSpaces((a + " ") + b) == Lexer.RemoveSpaces(a) + Lexer.RemoveSpaces(b)
  {
    var sp := " ";
    Lexer.RemoveSpacesAppend(a + sp, b);
    Lexer.RemoveSpacesAppend(a, sp);
    SpaceRemoved();
    var x, y := Lexer.RemoveSpaces(a), Lexer.RemoveSpaces(b);
    assert Lexer.RemoveSpaces(a + sp) == x + [];
    assert x + [] == x;
  }

  lemma {:induction false} SpaceRemoved()
    ensures Lexer.RemoveSpaces(" ") == []
  {
    assert " "[1..] == [];
  }
}
