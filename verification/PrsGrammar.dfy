/** Operators, priorities and tokens of expressions (lparser.c), and what can be written without parentheses. */
module PrsGrammar {
  import opened Wrappers

  datatype BinOp = ADD | SUB | MUL | DIV | MOD | POW | CONCAT | NE | EQ | LT | LE | GT | GE | AND | OR
  datatype UnOp = MINUS | NOT | LEN

  /** The tokens of expressions; `Simple` stands for a whole simple expression that is not in parentheses. */
  datatype Token =
      Simple(id: int) | LeftParen | RightParen
    | Plus | Dash | Star | Slash | Percent | Caret | TwoDots | NotEqual | EqualEqual
    | Less | LessEqual | Greater | GreaterEqual | AndWord | OrWord | NotWord | Hash
    | Other(id: int)

  /** getunopr. */
  function GetUnOpr(t: Token): Option<UnOp> {
    match t
    case NotWord => Some(NOT)
    case Dash => Some(MINUS)
    case Hash => Some(LEN)
    case _ => None
  }

  /** getbinopr. */
  function GetBinOpr(t: Token): Option<BinOp> {
    match t
    case Plus => Some(ADD)
    case Dash => Some(SUB)
    case Star => Some(MUL)
    case Slash => Some(DIV)
    case Percent => Some(MOD)
    case Caret => Some(POW)
    case TwoDots => Some(CONCAT)
    case NotEqual => Some(NE)
    case EqualEqual => Some(EQ)
    case Less => Some(LT)
    case LessEqual => Some(LE)
    case Greater => Some(GT)
    case GreaterEqual => Some(GE)
    case AndWord => Some(AND)
    case OrWord => Some(OR)
    case _ => None
  }

  function UnToken(op: UnOp): (t: Token)
    ensures GetUnOpr(t) == Some(op)
  {
    match op case MINUS => Dash case NOT => NotWord case LEN => Hash
  }

  function BinToken(op: BinOp): (t: Token)
    ensures GetBinOpr(t) == Some(op)
  {
    match op
    case ADD => Plus case SUB => Dash case MUL => Star case DIV => Slash case MOD => Percent
    case POW => Caret case CONCAT => TwoDots case NE => NotEqual case EQ => EqualEqual
    case LT => Less case LE => LessEqual case GT => Greater case GE => GreaterEqual
    case AND => AndWord case OR => OrWord
  }

  /** The left priority: `^` and `..` associate to the right. */
  function Left(op: BinOp): nat {
    match op
    case ADD | SUB => 6
    case MUL | DIV | MOD => 7
    case POW => 10
    case CONCAT => 5
    case NE | EQ | LT | LE | GT | GE => 3
    case AND => 2
    case OR => 1
  }

  function Right(op: BinOp): nat {
    match op
    case POW => 9
    case CONCAT => 4
    case _ => Left(op)
  }

  const UNARY_PRIORITY: nat := 8

  /** An expression as it is written. */
  datatype Expr = Atom(id: int) | Paren(inner: Expr) | Unary(un: UnOp, arg: Expr) | Binary(bin: BinOp, l: Expr, r: Expr)

  function Tokens(e: Expr): (t: seq<Token>)
    ensures 0 < |t|
  {
    match e
    case Atom(id) => [Simple(id)]
    case Paren(x) => [LeftParen] + Tokens(x) + [RightParen]
    case Unary(op, x) => [UnToken(op)] + Tokens(x)
    case Binary(op, l, r) => Tokens(l) + [BinToken(op)] + Tokens(r)
  }

  /** The left priority of the operator that comes next, 0 if there is none. */
  function NextPriority(rest: seq<Token>): nat {
    if rest == [] || GetBinOpr(rest[0]).None? then 0 else Left(GetBinOpr(rest[0]).value)
  }

  /**
   * The operators of `e` may stand without more parentheses behind an operator of right priority `limit`
   * and in front of one of left priority `next`.
   */
  predicate Readable(e: Expr, limit: nat, next: nat) {
    match e
    case Atom(_) => true
    case Paren(x) => Readable(x, 0, 0)
    case Unary(_, x) => next <= UNARY_PRIORITY && Readable(x, UNARY_PRIORITY, next)
    case Binary(op, l, r) =>
      limit < Left(op) && next <= Right(op) && Readable(l, limit, Left(op)) && Readable(r, Right(op), next)
  }

  /** How deep subexpr recurses on the way. */
  function Levels(e: Expr): (n: nat)
    ensures 1 <= n
  {
    match e
    case Atom(_) => 1
    case Paren(x) => 1 + Levels(x)
    case Unary(_, x) => 1 + Levels(x)
    case Binary(_, l, r) => if Levels(l) > 1 + Levels(r) then Levels(l) else 1 + Levels(r)
  }

  /** The operator tree that is meant. */
  function Strip(e: Expr): Expr {
    match e
    case Atom(_) => e
    case Paren(x) => Strip(x)
    case Unary(op, x) => Unary(op, Strip(x))
    case Binary(op, l, r) => Binary(op, Strip(l), Strip(r))
  }

  predicate Plain(e: Expr) {
    match e
    case Atom(_) => true
    case Paren(_) => false
    case Unary(_, x) => Plain(x)
    case Binary(_, l, r) => Plain(l) && Plain(r)
  }
}
