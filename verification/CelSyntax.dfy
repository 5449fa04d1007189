/** Tokens, expressions and their printing for the restricted expression language of model option maps. */
module CelSyntax {
  import opened Prelude

  datatype Kind = Identifier | StringToken | NumberToken | Operator | Punctuation | Eof

  datatype Token = Token(kind: Kind, value: string, offset: nat)

  datatype BinaryOp = Or | And | Eq | Ne | Lt | Le | Gt | Ge | Add | Sub | Mul | Div | Mod

  datatype UnaryOp = Not | Neg | Plus

  /** A numeric literal is kept as its text; `Number(text)` is not part of this model. */
  datatype Expr =
    | StringLiteral(text: string)
    | NumberLiteral(digits: string)
    | BoolLiteral(value: bool)
    | NullLiteral
    | Input
    | ArrayExpr(elements: seq<Expr>)
    | ObjectExpr(entries: seq<Entry>)
    | Unary(unary: UnaryOp, operand: Expr)
    | Binary(op: BinaryOp, left: Expr, right: Expr)
    | Conditional(condition: Expr, whenTrue: Expr, whenFalse: Expr)

  datatype Entry = Entry(key: string, value: Expr)

  // Levels of the grammar, loosest first: 0 conditional, 1 to 6 the binary operators, 7 unary, 8 primary.

  function Level(op: BinaryOp): (level: nat)
    ensures 1 <= level <= 6
  {
    match op
    case Or => 1
    case And => 2
    case Eq => 3 case Ne => 3
    case Lt => 4 case Le => 4 case Gt => 4 case Ge => 4
    case Add => 5 case Sub => 5
    case Mul => 6 case Div => 6 case Mod => 6
  }

  function Symbol(op: BinaryOp): string {
    match op
    case Or => "||"
    case And => "&&"
    case Eq => "==" case Ne => "!="
    case Lt => "<" case Le => "<=" case Gt => ">" case Ge => ">="
    case Add => "+" case Sub => "-"
    case Mul => "*" case Div => "/" case Mod => "%"
  }

  /** The operator of a level that a token stands for. */
  function OperatorAt(level: nat, token: Token): (op: Option<BinaryOp>)
    ensures op.Some? ==> Level(op.value) == level && Symbol(op.value) == token.value && token.kind.Operator?
    ensures op.None? ==> forall o: BinaryOp :: Level(o) == level && token.kind.Operator? ==> Symbol(o) != token.value
  {
    if !token.kind.Operator? then None
    else if level == 1 then (if token.value == "||" then Some(Or) else None)
    else if level == 2 then (if token.value == "&&" then Some(And) else None)
    else if level == 3 then
      (if token.value == "==" then Some(Eq) else if token.value == "!=" then Some(Ne) else None)
    else if level == 4 then
      (if token.value == "<" then Some(Lt) else if token.value == "<=" then Some(Le)
       else if token.value == ">" then Some(Gt) else if token.value == ">=" then Some(Ge) else None)
    else if level == 5 then
      (if token.value == "+" then Some(Add) else if token.value == "-" then Some(Sub) else None)
    else if level == 6 then
      (if token.value == "*" then Some(Mul) else if token.value == "/" then Some(Div)
       else if token.value == "%" then Some(Mod) else None)
    else None
  }

  function UnarySymbol(op: UnaryOp): string {
    match op case Not => "!" case Neg => "-" case Plus => "+"
  }

  function UnaryAt(token: Token): (op: Option<UnaryOp>)
    ensures op.Some? ==> UnarySymbol(op.value) == token.value && token.kind.Operator?
    ensures op.None? ==> forall o: UnaryOp :: token.kind.Operator? ==> UnarySymbol(o) != token.value
  {
    if !token.kind.Operator? then None
    else if token.value == "!" then Some(Not)
    else if token.value == "-" then Some(Neg)
    else if token.value == "+" then Some(Plus)
    else None
  }

  lemma SymbolFound(op: BinaryOp, offset: nat)
    ensures OperatorAt(Level(op), Token(Operator, Symbol(op), offset)) == Some(op)
    ensures forall level :: level != Level(op) ==> OperatorAt(level, Token(Operator, Symbol(op), offset)) == None
  {
  }

  lemma UnarySymbolFound(op: UnaryOp, offset: nat)
    ensures UnaryAt(Token(Operator, UnarySymbol(op), offset)) == Some(op)
  {
  }

  // -------------------------------------------------------------------------
  // Printing with the fewest parentheses
  // -------------------------------------------------------------------------

  function Tightness(e: Expr): (level: nat)
    ensures level <= 8
  {
    match e
    case Conditional(_, _, _) => 0
    case Binary(op, _, _) => Level(op)
    case Unary(_, _) => 7
    case _ => 8
  }

  function Punct(value: string): Token { Token(Punctuation, value, 0) }

  function Sign(value: string): Token { Token(Operator, value, 0) }

  function Word(value: string): Token { Token(Identifier, value, 0) }

  /** The tokens of an expression where the grammar expects `level`; offsets are all 0. */
  function Print(level: nat, e: Expr, variable: string): (tokens: seq<Token>)
    ensures |tokens| >= 1
    decreases e, 1
  {
    if Tightness(e) < level then [Punct("(")] + Body(e, variable) + [Punct(")")] else Body(e, variable)
  }

  function Body(e: Expr, variable: string): (tokens: seq<Token>)
    ensures |tokens| >= 1
    decreases e, 0
  {
    match e
    case StringLiteral(text) => [Token(StringToken, text, 0)]
    case NumberLiteral(digits) => [Token(NumberToken, digits, 0)]
    case BoolLiteral(value) => [Word(if value then "true" else "false")]
    case NullLiteral => [Word("null")]
    case Input => [Word(variable)]
    case ArrayExpr(elements) => [Punct("[")] + PrintElements(elements, variable) + [Punct("]")]
    case ObjectExpr(entries) => [Punct("{")] + PrintEntries(entries, variable) + [Punct("}")]
    case Unary(op, operand) => [Sign(UnarySymbol(op))] + Print(7, operand, variable)
    case Binary(op, left, right) =>
      Print(Level(op), left, variable) + [Sign(Symbol(op))] + Print(Level(op) + 1, right, variable)
    case Conditional(condition, whenTrue, whenFalse) =>
      Print(1, condition, variable) + [Punct("?")] + Print(0, whenTrue, variable)
        + [Punct(":")] + Print(0, whenFalse, variable)
  }

  function PrintElements(elements: seq<Expr>, variable: string): seq<Token>
    decreases elements, 0
  {
    if elements == [] then []
    else if |elements| == 1 then Print(0, elements[0], variable)
    else Print(0, elements[0], variable) + [Punct(",")] + PrintElements(elements[1..], variable)
  }

  function PrintEntry(entry: Entry, variable: string): seq<Token>
    decreases entry, 0
  {
    [Token(StringToken, entry.key, 0), Punct(":")] + Print(0, entry.value, variable)
  }

  function PrintEntries(entries: seq<Entry>, variable: string): seq<Token>
    decreases entries, 0
  {
    if entries == [] then []
    else if |entries| == 1 then PrintEntry(entries[0], variable)
    else PrintEntry(entries[0], variable) + [Punct(",")] + PrintEntries(entries[1..], variable)
  }
}
