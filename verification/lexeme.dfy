/** Tokens of the expression engine and the fixed category transition table
    (libs/lib_expression/expression.cpp:9-22, 228-230). */
module Lexemes {

  /** The twelve token categories, in the order the transition table is indexed.
      Start and End are virtual categories that bracket the token stream;
      Identifier and Operator only exist between lexing and reclassification. */
  datatype Category =
    | Start
    | End
    | Number
    | LeftBracket
    | RightBracket
    | Separator
    | BinaryOperator
    | UnaryOperator
    | Variable
    | Function
    | Identifier
    | Operator

  /** A token: its category, its literal text and the offset of its first
      character in the source string. */
  datatype Lexeme = Lexeme(cat: Category, text: string, pos: nat)

  /** The row/column of a category in the transition table. */
  function Index(c: Category): (i: nat)
    ensures i < 12
  {
    match c
    case Start => 0
    case End => 1
    case Number => 2
    case LeftBracket => 3
    case RightBracket => 4
    case Separator => 5
    case BinaryOperator => 6
    case UnaryOperator => 7
    case Variable => 8
    case Function => 9
    case Identifier => 10
    case Operator => 11
  }

  /** Categories after which a complete operand has just been read. */
  predicate OperandComplete(c: Category) {
    c == Number || c == Variable || c == RightBracket
  }

  /** Categories after which an operand is expected: the "unary context" of
      the reclassification pass. */
  predicate UnaryContext(c: Category) {
    c == Start || c == LeftBracket || c == Separator || c == BinaryOperator || c == UnaryOperator
  }

  /** The transition table as the source writes it: Transitions[from][to] == 1
      when a token of category `to` may follow a token of category `from`. */
  const Transitions: seq<seq<int>> := [
    [0, 0, 1, 1, 0, 0, 0, 1, 1, 1, 0, 0],
    [0, 0, 0, 0, 0, 0, 0, 0, 0, 0, 0, 0],
    [0, 1, 0, 0, 1, 0, 1, 0, 0, 0, 0, 0],
    [0, 0, 1, 1, 0, 0, 0, 1, 1, 1, 0, 0],
    [0, 1, 0, 0, 1, 0, 1, 0, 0, 0, 0, 0],
    [0, 0, 0, 0, 0, 0, 0, 0, 0, 0, 0, 0],
    [0, 0, 1, 1, 0, 0, 0, 1, 1, 1, 0, 0],
    [0, 0, 1, 1, 0, 0, 0, 1, 1, 1, 0, 0],
    [0, 1, 0, 0, 1, 0, 1, 0, 0, 0, 0, 0],
    [0, 0, 0, 1, 0, 0, 0, 0, 0, 0, 0, 0],
    [0, 0, 0, 0, 0, 0, 0, 0, 0, 0, 0, 0],
    [0, 0, 0, 0, 0, 0, 0, 0, 0, 0, 0, 0]
  ]

  /** The table read by columns: an operand-starting token may follow exactly
      the unary-context categories except the unusable Separator (and an
      opening bracket may also follow a Function), End, a binary operator and
      a closing bracket may follow exactly the operand-complete categories,
      and nothing may ever follow or precede a Separator, an unreclassified
      Identifier or Operator, or End. TableAgrees proves this is the table. */
  predicate CanTransition(from: Category, to: Category) {
    match to
    case Number => UnaryContext(from) && from != Separator
    case Variable => UnaryContext(from) && from != Separator
    case Function => UnaryContext(from) && from != Separator
    case UnaryOperator => UnaryContext(from) && from != Separator
    case LeftBracket => (UnaryContext(from) && from != Separator) || from == Function
    case End => OperandComplete(from)
    case BinaryOperator => OperandComplete(from)
    case RightBracket => OperandComplete(from)
    case _ => false
  }

  /** The column reading agrees with the source's table on all 144 entries. */
  lemma {:induction false} TableAgrees(from: Category, to: Category)
    ensures CanTransition(from, to) <==> Transitions[Index(from)][Index(to)] == 1
  {
  }

  /** A Function may only be followed by an opening bracket, and an empty
      token stream (Start followed by End) is rejected. */
  lemma {:induction false} TableShape(from: Category, to: Category)
    ensures from == Function ==> (CanTransition(from, to) <==> to == LeftBracket)
    ensures from == Separator || from == End || from == Identifier || from == Operator ==> !CanTransition(from, to)
    ensures !CanTransition(Start, End)
  {
  }

  // Character classes of the lexer (libs/lib_expression/expression.cpp:287, 314-321, 331-364).

  predicate IsDigit(c: char) { '0' <= c <= '9' }

  predicate IsLetter(c: char) { ('a' <= c <= 'z') || ('A' <= c <= 'Z') }

  predicate IsIdentStart(c: char) { IsLetter(c) || c == '_' }

  predicate IsIdentChar(c: char) { IsLetter(c) || IsDigit(c) || c == '_' }

  predicate IsOpenBracket(c: char) { c == '(' || c == '[' || c == '{' }

  predicate IsCloseBracket(c: char) { c == ')' || c == ']' || c == '}' }

  predicate IsOperatorChar(c: char) { c == '+' || c == '-' || c == '*' || c == '/' || c == '^' || c == '|' }

  /** Characters that can start a token or be skipped; any other character in
      token-start position is an unknown symbol. */
  predicate IsKnownStart(c: char) {
    c == ' ' || IsDigit(c) || IsIdentStart(c) || IsOpenBracket(c) || IsCloseBracket(c)
    || c == ',' || IsOperatorChar(c)
  }
}
