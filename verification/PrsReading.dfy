/** How expressions are read, by the order of precedence in section 2.5.6 of the Lua 5.1 Reference Manual. */
module PrsReading {
  import opened PrsGrammar
  import opened PrsSubexpr
  import opened Wrappers

  // ---------------------------------------------------------------- the manual

  /** From lower to higher: or, and, the comparisons, `..`, `+ -`, `* / %`, the unary operators, `^`. */
  function Rank(op: BinOp): nat {
    if op == OR then 1
    else if op == AND then 2
    else if op in {LT, GT, LE, GE, NE, EQ} then 3
    else if op == CONCAT then 4
    else if op in {ADD, SUB} then 5
    else if op in {MUL, DIV, MOD} then 6
    else 8
  }

  const UNARY_RANK: nat := 7

  /** Operators of one rank take their operands from the left, but `..` and `^` from the right. */
  predicate FromTheRight(op: BinOp) {
    op == CONCAT || op == POW
  }

  /** The first of two operators takes the operand between them. */
  predicate FirstTakes(op1: BinOp, op2: BinOp) {
    Rank(op1) > Rank(op2) || (Rank(op1) == Rank(op2) && !FromTheRight(op1))
  }

  function Grouped(x: Expr, op1: BinOp, y: Expr, op2: BinOp, z: Expr): Expr {
    if FirstTakes(op1, op2) then Binary(op2, Binary(op1, x, y), z) else Binary(op1, x, Binary(op2, y, z))
  }

  function GroupedPrefix(un: UnOp, x: Expr, op: BinOp, y: Expr): Expr {
    if UNARY_RANK > Rank(op) then Binary(op, Unary(un, x), y) else Unary(un, Binary(op, x, y))
  }

  /** How the operators are written. */
  function Written(t: Token): string {
    match t
    case Plus => "+" case Dash => "-" case Star => "*" case Slash => "/" case Percent => "%" case Caret => "^"
    case TwoDots => ".." case NotEqual => "~=" case EqualEqual => "==" case Less => "<" case LessEqual => "<="
    case Greater => ">" case GreaterEqual => ">=" case AndWord => "and" case OrWord => "or" case NotWord => "not"
    case Hash => "#" case LeftParen => "(" case RightParen => ")" case Simple(_) => "" case Other(_) => ""
  }

  function Sign(op: BinOp): string {
    match op
    case ADD => "+" case SUB => "-" case MUL => "*" case DIV => "/" case MOD => "%" case POW => "^"
    case CONCAT => ".." case NE => "~=" case EQ => "==" case LT => "<" case LE => "<=" case GT => ">" case GE => ">="
    case AND => "and" case OR => "or"
  }

  function UnSign(op: UnOp): string {
    match op case MINUS => "-" case NOT => "not" case LEN => "#"
  }

  // ---------------------------------------------------------------- the parser

  /** The operators are known by what is written for them. */
  lemma OperatorSigns(t: Token, op: BinOp, un: UnOp)
    ensures GetBinOpr(t) == Some(op) <==> Written(t) == Sign(op)
    ensures GetUnOpr(t) == Some(un) <==> Written(t) == UnSign(un)
  {
  }

  /** Something that no operator can reach into: a simple expression, or one in parentheses. */
  predicate Operand(e: Expr) {
    e.Atom? || (e.Paren? && Readable(e, 0, 0))
  }

  lemma GroupedTokens(x: Expr, op1: BinOp, y: Expr, op2: BinOp, z: Expr)
    ensures Tokens(Grouped(x, op1, y, op2, z)) == Tokens(x) + [BinToken(op1)] + Tokens(y) + [BinToken(op2)] + Tokens(z)
  {
    hide BinToken, FirstTakes;
    var t := Tokens(y) + [BinToken(op2)] + Tokens(z);
    if !FirstTakes(op1, op2) {
      assert Tokens(x) + [BinToken(op1)] + Tokens(y) + [BinToken(op2)] + Tokens(z) == Tokens(x) + [BinToken(op1)] + t;
    }
  }

  /** `x op1 y op2 z`. */
  lemma TwoOperators(x: Expr, op1: BinOp, y: Expr, op2: BinOp, z: Expr, rest: seq<Token>, d: nat)
    requires Operand(x) && Operand(y) && Operand(z) && NextPriority(rest) == 0
    requires Levels(Grouped(x, op1, y, op2, z)) <= d
    ensures Sub(Tokens(x) + [BinToken(op1)] + Tokens(y) + [BinToken(op2)] + Tokens(z) + rest, 0, d) ==
              Some((Grouped(x, op1, y, op2, z), rest))
  {
    hide Sub, BinToken, Levels, NextPriority, Readable, Operand, Tokens, Grouped;
    GroupedTokens(x, op1, y, op2, z);
    GroupedReadable(x, op1, y, op2, z);
    var e := Grouped(x, op1, y, op2, z);
    SubExactly(Tokens(e) + rest, 0, d, e, rest);
  }

  lemma OperandReadable(x: Expr, limit: nat, next: nat)
    requires Operand(x)
    ensures Readable(x, limit, next)
  {
  }

  lemma BinaryReadable(op: BinOp, l: Expr, r: Expr, limit: nat, next: nat)
    requires limit < Left(op) && next <= Right(op) && Readable(l, limit, Left(op)) && Readable(r, Right(op), next)
    ensures Readable(Binary(op, l, r), limit, next)
  {
  }

  lemma UnaryReadable(un: UnOp, x: Expr, limit: nat, next: nat)
    requires next <= UNARY_PRIORITY && Readable(x, UNARY_PRIORITY, next)
    ensures Readable(Unary(un, x), limit, next)
  {
  }

  /** The priorities of lparser.c order the operators as the manual does. */
  lemma PriorityIsRank(op1: BinOp, op2: BinOp)
    ensures 0 < Left(op1) && (Left(op2) <= Right(op1) <==> FirstTakes(op1, op2))
    ensures Left(op1) <= UNARY_PRIORITY <==> UNARY_RANK > Rank(op1)
  {
  }

  lemma GroupedReadable(x: Expr, op1: BinOp, y: Expr, op2: BinOp, z: Expr)
    requires Operand(x) && Operand(y) && Operand(z)
    ensures Readable(Grouped(x, op1, y, op2, z), 0, 0)
  {
    hide Operand, Readable, Left, Right, FirstTakes;
    PriorityIsRank(op1, op2);
    PriorityIsRank(op2, op1);
    OperandReadable(x, 0, Left(op1));
    OperandReadable(y, Right(op1), Left(op2));
    OperandReadable(z, Right(op2), 0);
    if FirstTakes(op1, op2) {
      BinaryReadable(op1, x, y, 0, Left(op2));
      BinaryReadable(op2, Binary(op1, x, y), z, 0, 0);
    } else {
      BinaryReadable(op2, y, z, Right(op1), 0);
      BinaryReadable(op1, x, Binary(op2, y, z), 0, 0);
    }
  }

  /** `un x op y`: of the binary operators only `^` comes before a unary one. */
  lemma PrefixOperator(un: UnOp, x: Expr, op: BinOp, y: Expr, rest: seq<Token>, d: nat)
    requires Operand(x) && Operand(y) && NextPriority(rest) == 0
    requires Levels(GroupedPrefix(un, x, op, y)) <= d
    ensures Sub([UnToken(un)] + Tokens(x) + [BinToken(op)] + Tokens(y) + rest, 0, d) ==
              Some((GroupedPrefix(un, x, op, y), rest))
  {
    hide Sub, BinToken, UnToken, Levels, NextPriority, Readable, Operand, Left, Right, Rank;
    var e := GroupedPrefix(un, x, op, y);
    var toks := [UnToken(un)] + Tokens(x) + [BinToken(op)] + Tokens(y);
    assert Tokens(e) == toks by {
      assert toks == [UnToken(un)] + (Tokens(x) + [BinToken(op)] + Tokens(y));
    }
    PrefixReadable(un, x, op, y);
    SubExactly(toks + rest, 0, d, e, rest);
  }

  lemma PrefixReadable(un: UnOp, x: Expr, op: BinOp, y: Expr)
    requires Operand(x) && Operand(y)
    ensures Readable(GroupedPrefix(un, x, op, y), 0, 0)
  {
    hide Operand, Readable, Left, Right, Rank;
    PriorityIsRank(op, op);
    OperandReadable(x, UNARY_PRIORITY, Left(op));
    OperandReadable(y, Right(op), 0);
    if UNARY_RANK > Rank(op) {
      UnaryReadable(un, x, 0, Left(op));
      BinaryReadable(op, Unary(un, x), y, 0, 0);
    } else {
      BinaryReadable(op, x, y, UNARY_PRIORITY, 0);
      UnaryReadable(un, Binary(op, x, y), 0, 0);
    }
  }

  /** `x op un y`: a unary operator behind a binary one is its right operand, whatever the two are. */
  lemma PrefixBehind(x: Expr, op: BinOp, un: UnOp, y: Expr, rest: seq<Token>, d: nat)
    requires Operand(x) && Operand(y) && NextPriority(rest) == 0
    requires Levels(Binary(op, x, Unary(un, y))) <= d
    ensures Sub(Tokens(x) + [BinToken(op)] + [UnToken(un)] + Tokens(y) + rest, 0, d) ==
              Some((Binary(op, x, Unary(un, y)), rest))
  {
    hide Sub, BinToken, UnToken, Levels, NextPriority, Readable, Operand, Left, Right, Rank;
    var e := Binary(op, x, Unary(un, y));
    var toks := Tokens(x) + [BinToken(op)] + [UnToken(un)] + Tokens(y);
    assert Tokens(e) == toks by {
      assert toks == Tokens(x) + [BinToken(op)] + ([UnToken(un)] + Tokens(y));
    }
    OperandReadable(x, 0, Left(op));
    OperandReadable(y, UNARY_PRIORITY, 0);
    PriorityIsRank(op, op);
    UnaryReadable(un, y, Right(op), 0);
    BinaryReadable(op, x, Unary(un, y), 0, 0);
    SubExactly(toks + rest, 0, d, e, rest);
  }
}
