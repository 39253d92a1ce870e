/** Precedence climbing: subexpr of lparser.c reads back exactly what may be written without more parentheses. */
module PrsSubexpr {
  import opened PrsGrammar
  import opened Wrappers

  const LUAI_MAXCCALLS: nat := 200

  // ---------------------------------------------------------------- subexpr, with `d` levels left

  /** subexpr: the expression, and the tokens behind it. */
  function Sub(toks: seq<Token>, limit: nat, d: nat): (r: Option<(Expr, seq<Token>)>)
    ensures r.Some? ==> |r.value.1| < |toks|
    decreases |toks|, 1
  {
    if d == 0 || toks == [] then None
    else if GetUnOpr(toks[0]).Some? then
      var x := Sub(toks[1..], UNARY_PRIORITY, d - 1);
      if x.None? then None else Loop(Unary(GetUnOpr(toks[0]).value, x.value.0), x.value.1, limit, d)
    else if toks[0].Simple? then Loop(Atom(toks[0].id), toks[1..], limit, d)
    else if toks[0].LeftParen? then
      var x := Sub(toks[1..], 0, d - 1);
      if x.None? || x.value.1 == [] || !x.value.1[0].RightParen? then None
      else Loop(Paren(x.value.0), x.value.1[1..], limit, d)
    else None
  }

  /** Its loop, with `v` read so far. */
  function Loop(v: Expr, toks: seq<Token>, limit: nat, d: nat): (r: Option<(Expr, seq<Token>)>)
    requires 0 < d
    ensures r.Some? ==> |r.value.1| <= |toks|
    decreases |toks|, 0
  {
    if toks == [] || GetBinOpr(toks[0]).None? || Left(GetBinOpr(toks[0]).value) <= limit then Some((v, toks))
    else
      var op := GetBinOpr(toks[0]).value;
      var v2 := Sub(toks[1..], Right(op), d - 1);
      if v2.None? then None else Loop(Binary(op, v, v2.value.0), v2.value.1, limit, d)
  }

  // ---------------------------------------------------------------- the parser, on the token stream

  class LexState {
    var toks: seq<Token>
    var nCcalls: nat

    /** What subexpr would do from here. */
    function Ahead(limit: nat): Option<(Expr, seq<Token>)>
      reads this
    {
      Sub(toks, limit, if nCcalls < LUAI_MAXCCALLS then LUAI_MAXCCALLS - nCcalls else 0)
    }

    /** subexpr; it returns the first operator it left alone. */
    method Subexpr(limit: nat) returns (v: Option<Expr>, op: Option<BinOp>)
      modifies this
      ensures v.Some? <==> old(Ahead(limit)).Some?
      ensures v.Some? ==> old(Ahead(limit)) == Some((v.value, toks)) && nCcalls == old(nCcalls)
      ensures v.Some? ==> op == if toks == [] then None else GetBinOpr(toks[0])
      decreases |toks|, 1
    {
      ghost var start := toks;
      nCcalls := nCcalls + 1;
      if nCcalls > LUAI_MAXCCALLS {
        return None, None;
      }
      ghost var d: nat := LUAI_MAXCCALLS - nCcalls + 1;
      var e: Expr;
      if toks != [] && GetUnOpr(toks[0]).Some? {
        var uop := GetUnOpr(toks[0]).value;
        toks := toks[1..];
        var x, _ := Subexpr(UNARY_PRIORITY);
        if x.None? {
          return None, None;
        }
        e := Unary(uop, x.value);
      } else {
        var x := SimpleExp();
        if x.None? {
          return None, None;
        }
        e := x.value;
      }
      op := if toks == [] then None else GetBinOpr(toks[0]);
      while op.Some? && Left(op.value) > limit
        invariant op == if toks == [] then None else GetBinOpr(toks[0])
        invariant nCcalls == old(nCcalls) + 1 && |toks| < |start|
        invariant Loop(e, toks, limit, d) == Sub(start, limit, d)
        decreases |toks|
      {
        toks := toks[1..];
        var v2, nextop := Subexpr(Right(op.value));
        if v2.None? {
          return None, None;
        }
        e := Binary(op.value, e, v2.value);
        op := nextop;
      }
      nCcalls := nCcalls - 1;
      v := Some(e);
    }

    /** simpleexp, and prefixexp for what is in parentheses. */
    method SimpleExp() returns (v: Option<Expr>)
      requires nCcalls <= LUAI_MAXCCALLS
      modifies this
      ensures old(toks) != [] && old(toks)[0].Simple? ==> v == Some(Atom(old(toks)[0].id)) && toks == old(toks)[1..]
      ensures old(toks) == [] || !(old(toks)[0].Simple? || old(toks)[0].LeftParen?) ==> v == None
      ensures old(toks) != [] && old(toks)[0].LeftParen? ==>
                var x := Sub(old(toks)[1..], 0, LUAI_MAXCCALLS - old(nCcalls));
                if x.None? || x.value.1 == [] || !x.value.1[0].RightParen? then v == None
                else v == Some(Paren(x.value.0)) && toks == x.value.1[1..]
      ensures v.Some? ==> nCcalls == old(nCcalls) && |toks| < |old(toks)|
      decreases |toks|, 0
    {
      if toks == [] {
        return None;
      }
      if toks[0].LeftParen? {
        toks := toks[1..];
        var x, _ := Subexpr(0);
        if x.None? || toks == [] || !toks[0].RightParen? {
          return None;
        }
        toks := toks[1..];
        return Some(Paren(x.value));
      }
      if toks[0].Simple? {
        v := Some(Atom(toks[0].id));
        toks := toks[1..];
      } else {
        v := None;
      }
    }
  }

  // ---------------------------------------------------------------- what is written is read back

  lemma LoopStops(v: Expr, toks: seq<Token>, limit: nat, d: nat)
    requires 0 < d && NextPriority(toks) <= limit
    ensures Loop(v, toks, limit, d) == Some((v, toks))
  {
  }

  lemma SubUnary(op: UnOp, toks: seq<Token>, x: Expr, rest: seq<Token>, limit: nat, d: nat)
    requires 0 < d && Sub(toks, UNARY_PRIORITY, d - 1) == Some((x, rest))
    ensures Sub([UnToken(op)] + toks, limit, d) == Loop(Unary(op, x), rest, limit, d)
  {
    hide Loop;
    assert ([UnToken(op)] + toks)[1..] == toks;
  }

  lemma SubParen(toks: seq<Token>, x: Expr, rest: seq<Token>, limit: nat, d: nat)
    requires 0 < d && Sub(toks, 0, d - 1) == Some((x, [RightParen] + rest))
    ensures Sub([LeftParen] + toks, limit, d) == Loop(Paren(x), rest, limit, d)
  {
    hide Loop;
    assert ([LeftParen] + toks)[1..] == toks && ([RightParen] + rest)[1..] == rest;
  }

  lemma LoopBinary(v: Expr, op: BinOp, toks: seq<Token>, r: Expr, rest: seq<Token>, limit: nat, d: nat)
    requires 0 < d && limit < Left(op) && Sub(toks, Right(op), d - 1) == Some((r, rest))
    ensures Loop(v, [BinToken(op)] + toks, limit, d) == Loop(Binary(op, v, r), rest, limit, d)
  {
    hide Sub, Left, Right;
    assert ([BinToken(op)] + toks)[1..] == toks;
  }

  lemma PriorityOf(op: BinOp, toks: seq<Token>)
    ensures NextPriority([BinToken(op)] + toks) == Left(op)
  {
    assert ([BinToken(op)] + toks)[0] == BinToken(op);
  }

  lemma ReadsBinary(l: Expr, op: BinOp, r: Expr, rest: seq<Token>, limit: nat, d: nat)
    requires 0 < d && limit < Left(op) && NextPriority(rest) <= Right(op)
    requires var behind := [BinToken(op)] + (Tokens(r) + rest);
             Sub(Tokens(l) + behind, limit, d) == Loop(l, behind, limit, d)
    requires 1 < d && Sub(Tokens(r) + rest, Right(op), d - 1) == Loop(r, rest, Right(op), d - 1)
    ensures Sub(Tokens(Binary(op, l, r)) + rest, limit, d) == Loop(Binary(op, l, r), rest, limit, d)
  {
    hide Sub, Loop, BinToken, Left, Right, NextPriority;
    var behind := Tokens(r) + rest;
    assert Tokens(Binary(op, l, r)) + rest == Tokens(l) + ([BinToken(op)] + behind);
    LoopStops(r, rest, Right(op), d - 1);
    LoopBinary(l, op, behind, r, rest, limit, d);
  }

  /** In front of whatever follows, subexpr has read `e` when it comes back to its loop. */
  lemma {:induction false} ReadsPrefix(e: Expr, limit: nat, next: nat, rest: seq<Token>, d: nat)
    requires Readable(e, limit, next) && NextPriority(rest) == next && Levels(e) <= d
    ensures Sub(Tokens(e) + rest, limit, d) == Loop(e, rest, limit, d)
    decreases e
  {
    hide BinToken, Left, Right, UnToken, GetBinOpr, GetUnOpr, Loop, NextPriority;
    if e.Atom? {
      assert (Tokens(e) + rest)[1..] == rest;
      NotUnary(e.id);
    } else {
      hide Sub;
      if e.Paren? {
        assert Tokens(e) + rest == [LeftParen] + (Tokens(e.inner) + ([RightParen] + rest));
        BeforeParen([RightParen] + rest);
        ReadsPrefix(e.inner, 0, 0, [RightParen] + rest, d - 1);
        LoopStops(e.inner, [RightParen] + rest, 0, d - 1);
        SubParen(Tokens(e.inner) + ([RightParen] + rest), e.inner, rest, limit, d);
      } else if e.Unary? {
        assert Tokens(e) + rest == [UnToken(e.un)] + (Tokens(e.arg) + rest);
        ReadsPrefix(e.arg, UNARY_PRIORITY, next, rest, d - 1);
        LoopStops(e.arg, rest, UNARY_PRIORITY, d - 1);
        SubUnary(e.un, Tokens(e.arg) + rest, e.arg, rest, limit, d);
      } else {
        var behind := Tokens(e.r) + rest;
        PriorityOf(e.bin, behind);
        ReadsPrefix(e.l, limit, Left(e.bin), [BinToken(e.bin)] + behind, d);
        ReadsPrefix(e.r, Right(e.bin), next, rest, d - 1);
        ReadsBinary(e.l, e.bin, e.r, rest, limit, d);
      }
    }
  }

  lemma NotUnary(id: int)
    ensures GetUnOpr(Simple(id)) == None
  {
  }

  // ---------------------------------------------------------------- what is read was written

  /** What one call of subexpr has read, and where it stopped. */
  ghost predicate ReadAs(toks: seq<Token>, limit: nat, d: nat, e: Expr, rest: seq<Token>) {
    && toks == Tokens(e) + rest && Levels(e) <= d
    && NextPriority(rest) <= limit && Readable(e, limit, NextPriority(rest))
  }

  lemma BeforeParen(rest: seq<Token>)
    requires rest != [] && rest[0].RightParen?
    ensures NextPriority(rest) == 0
  {
  }

  lemma TokenOf(t: Token)
    ensures GetUnOpr(t).Some? ==> UnToken(GetUnOpr(t).value) == t
    ensures GetBinOpr(t).Some? ==> BinToken(GetBinOpr(t).value) == t
  {
  }

  /** How subexpr begins. */
  lemma SubBegins(toks: seq<Token>, limit: nat, d: nat)
    requires Sub(toks, limit, d).Some?
    ensures 0 < d && toks != [] && toks == [toks[0]] + toks[1..]
    ensures if GetUnOpr(toks[0]).Some? then
              var x := Sub(toks[1..], UNARY_PRIORITY, d - 1);
              x.Some? && Sub(toks, limit, d) == Loop(Unary(GetUnOpr(toks[0]).value, x.value.0), x.value.1, limit, d)
            else if toks[0].Simple? then Sub(toks, limit, d) == Loop(Atom(toks[0].id), toks[1..], limit, d)
            else
              var x := Sub(toks[1..], 0, d - 1);
              && toks[0].LeftParen? && x.Some? && x.value.1 != [] && x.value.1[0].RightParen?
              && Sub(toks, limit, d) == Loop(Paren(x.value.0), x.value.1[1..], limit, d)
  {
    hide GetUnOpr, Loop;
  }

  lemma ParenTokens(x: Expr, rest: seq<Token>)
    requires rest != [] && rest[0].RightParen?
    ensures [LeftParen] + (Tokens(x) + rest) == Tokens(Paren(x)) + rest[1..]
  {
    assert rest == [RightParen] + rest[1..];
  }

  lemma {:induction false} SubReads(toks: seq<Token>, limit: nat, d: nat)
    requires Sub(toks, limit, d).Some?
    ensures ReadAs(toks, limit, d, Sub(toks, limit, d).value.0, Sub(toks, limit, d).value.1)
    decreases |toks|, 1
  {
    SubBegins(toks, limit, d);
    TokenOf(toks[0]);
    hide GetUnOpr, GetBinOpr, UnToken, BinToken, Loop, Sub, Left, Right, NextPriority;
    if GetUnOpr(toks[0]).Some? {
      var x := Sub(toks[1..], UNARY_PRIORITY, d - 1).value;
      SubReads(toks[1..], UNARY_PRIORITY, d - 1);
      assert toks == Tokens(Unary(GetUnOpr(toks[0]).value, x.0)) + x.1;
      LoopReads(Unary(GetUnOpr(toks[0]).value, x.0), x.1, limit, d);
    } else if toks[0].Simple? {
      LoopReads(Atom(toks[0].id), toks[1..], limit, d);
    } else {
      var x := Sub(toks[1..], 0, d - 1).value;
      SubReads(toks[1..], 0, d - 1);
      BeforeParen(x.1);
      ParenTokens(x.0, x.1);
      LoopReads(Paren(x.0), x.1[1..], limit, d);
    }
  }

  lemma {:induction false} LoopReads(v: Expr, toks: seq<Token>, limit: nat, d: nat)
    requires 0 < d && Loop(v, toks, limit, d).Some? && Readable(v, limit, NextPriority(toks)) && Levels(v) <= d
    ensures ReadAs(Tokens(v) + toks, limit, d, Loop(v, toks, limit, d).value.0, Loop(v, toks, limit, d).value.1)
    decreases |toks|, 0
  {
    if toks != [] && GetBinOpr(toks[0]).Some? && Left(GetBinOpr(toks[0]).value) > limit {
      var op := GetBinOpr(toks[0]).value;
      TokenOf(toks[0]);
      hide GetUnOpr, GetBinOpr, UnToken, BinToken, Left, Right, Sub;
      var v2 := Sub(toks[1..], Right(op), d - 1).value;
      SubReads(toks[1..], Right(op), d - 1);
      assert Tokens(v) + toks == Tokens(Binary(op, v, v2.0)) + v2.1;
      LoopReads(Binary(op, v, v2.0), v2.1, limit, d);
    }
  }

  /**
   * subexpr reads an expression exactly if its tokens are there, written so that the priorities need no
   * more parentheses, behind it comes no operator above the limit, and the levels suffice.
   */
  lemma SubExactly(toks: seq<Token>, limit: nat, d: nat, e: Expr, rest: seq<Token>)
    ensures Sub(toks, limit, d) == Some((e, rest)) <==> ReadAs(toks, limit, d, e, rest)
  {
    if ReadAs(toks, limit, d, e, rest) {
      ReadsPrefix(e, limit, NextPriority(rest), rest, d);
      LoopStops(e, rest, limit, d);
    }
    if Sub(toks, limit, d) == Some((e, rest)) {
      SubReads(toks, limit, d);
    }
  }

  // ---------------------------------------------------------------- the parentheses that the priorities force

  /** A binary or unary expression needs parentheses here. */
  predicate Clashes(e: Expr, limit: nat, next: nat) {
    match e
    case Unary(_, _) => UNARY_PRIORITY < next
    case Binary(op, _, _) => Left(op) <= limit || Right(op) < next
    case _ => false
  }

  /** An operator tree with only the parentheses its priorities force. */
  function Print(e: Expr, limit: nat, next: nat): Expr
    decreases e
  {
    if Clashes(e, limit, next) then Paren(Bare(e, 0, 0)) else Bare(e, limit, next)
  }

  /** The same, without parentheses around the whole. */
  function Bare(e: Expr, limit: nat, next: nat): Expr
    decreases e, 0
  {
    match e
    case Atom(_) => e
    case Paren(_) => e
    case Unary(op, x) => Unary(op, Print(x, UNARY_PRIORITY, next))
    case Binary(op, l, r) => Binary(op, Print(l, limit, Left(op)), Print(r, Right(op), next))
  }

  /** What is printed can be read, and means the tree. */
  lemma {:induction false} PrintReads(e: Expr, limit: nat, next: nat)
    requires Plain(e)
    ensures Readable(Print(e, limit, next), limit, next) && Strip(Print(e, limit, next)) == e
    decreases e, 1
  {
    BareReads(e, 0, 0);
    if !Clashes(e, limit, next) { BareReads(e, limit, next); }
  }

  lemma {:induction false} BareReads(e: Expr, limit: nat, next: nat)
    requires Plain(e) && !Clashes(e, limit, next)
    ensures Readable(Bare(e, limit, next), limit, next) && Strip(Bare(e, limit, next)) == e
    decreases e, 0
  {
    match e {
      case Atom(_) =>
      case Unary(op, x) => PrintReads(x, UNARY_PRIORITY, next);
      case Binary(op, l, r) =>
        PrintReads(l, limit, Left(op));
        PrintReads(r, Right(op), next);
    }
  }

  /** A tree that is printed and parsed comes back, if its depth is within the levels that are left. */
  lemma RoundTrip(e: Expr, rest: seq<Token>, d: nat)
    requires Plain(e) && NextPriority(rest) == 0 && Levels(Print(e, 0, 0)) <= d
    ensures Sub(Tokens(Print(e, 0, 0)) + rest, 0, d) == Some((Print(e, 0, 0), rest)) && Strip(Print(e, 0, 0)) == e
  {
    PrintReads(e, 0, 0);
    SubExactly(Tokens(Print(e, 0, 0)) + rest, 0, d, Print(e, 0, 0), rest);
  }

  // ---------------------------------------------------------------- no text with fewer tokens gives the tree

  /** In front of an operator that binds tighter than the limit, the limit does not matter. */
  lemma {:induction false} LimitFree(e: Expr, limit: nat, limit': nat, next: nat)
    requires limit < next && limit' < next
    ensures Print(e, limit, next) == Print(e, limit', next)
    decreases e
  {
    if e.Binary? && !Clashes(e, limit, next) { LimitFree(e.l, limit, limit', Left(e.bin)); }
  }

  ghost predicate IsPriority(n: nat) {
    n == 0 || exists op :: n == Left(op)
  }

  /** Behind an operator that binds as tight as the next one, the next one does not matter. */
  lemma {:induction false} NextFree(e: Expr, limit: nat, next: nat, next': nat)
    requires next <= limit && next' <= limit <= 9 && IsPriority(next) && IsPriority(next')
    ensures Print(e, limit, next) == Print(e, limit, next')
    decreases e
  {
    if e.Unary? {
      NextFree(e.arg, UNARY_PRIORITY, next, next');
    } else if e.Binary? && !Clashes(e, limit, next) {
      NextFree(e.r, Right(e.bin), next, next');
    }
  }

  /** Parentheses around the whole would save none inside. */
  lemma BareFree(e: Expr, limit: nat, next: nat)
    requires !Clashes(e, limit, next) && IsPriority(next)
    ensures Bare(e, limit, next) == Bare(e, 0, 0)
  {
    if e.Unary? {
      NextFree(e.arg, UNARY_PRIORITY, next, 0);
    } else if e.Binary? {
      LimitFree(e.l, limit, 0, Left(e.bin));
      NextFree(e.r, Right(e.bin), next, 0);
    }
  }

  lemma LeftIsPriority(op: BinOp)
    ensures IsPriority(Left(op))
  {
  }

  lemma {:induction false} PrintIsShortest(q: Expr, limit: nat, next: nat)
    requires Readable(q, limit, next) && IsPriority(next)
    ensures |Tokens(Print(Strip(q), limit, next))| <= |Tokens(q)|
    decreases q
  {
    hide Left, Right, IsPriority;
    if q.Paren? {
      NoPriority();
      PrintIsShortest(q.inner, 0, 0);
      var e := Strip(q);
      NoClash(e);
      if !Clashes(e, limit, next) { BareFree(e, limit, next); }
    } else if q.Unary? {
      PrintIsShortest(q.arg, UNARY_PRIORITY, next);
    } else if q.Binary? {
      LeftIsPriority(q.bin);
      PrintIsShortest(q.l, limit, Left(q.bin));
      PrintIsShortest(q.r, Right(q.bin), next);
    }
  }

  lemma NoPriority()
    ensures IsPriority(0)
  {
  }

  lemma NoClash(e: Expr)
    ensures !Clashes(e, 0, 0)
  {
  }

  /** Whatever tokens give an operator tree, the printed ones are no more. */
  lemma NoShorterText(toks: seq<Token>, d: nat)
    requires Sub(toks, 0, d).Some? && Sub(toks, 0, d).value.1 == []
    ensures |Tokens(Print(Strip(Sub(toks, 0, d).value.0), 0, 0))| <= |toks|
  {
    var q := Sub(toks, 0, d).value.0;
    SubExactly(toks, 0, d, q, []);
    assert toks == Tokens(q);
    PrintIsShortest(q, 0, 0);
  }
}
