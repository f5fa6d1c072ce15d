/**
  The expression productions as the source runs them (grammar/c/wok_parse.c:1049-1345,
  1358-1420), each proved to compute the production of ExprLadder, fault for fault.
*/
module ExprParser {
  import opened Tokens
  import opened Cursors
  import P = PatternLadder
  import PP = PatternParser
  import L = ExprLadder

  method ParseExpr(p: Cursor) returns (r: L.Expr)
    requires p.Valid()
    modifies p
    ensures p.Kept(old(p.i), old(p.panic))
    ensures !old(p.panic) ==> Outcome(L.ParseExpr(old(p.Now())), p.panic, r, p.Now())
    decreases p.Measure(), 6
  {
    if p.Cur().Lambda? {
      p.Bump();
      r := ParseLambda(p);
    } else if p.Cur().Let? {
      p.Bump();
      r := ParseLetIn(p);
    } else if p.Cur().If? {
      p.Bump();
      r := ParseIf(p);
    } else {
      r := ParseChain(p);
      if p.Cur().Assign? {
        p.Bump();
        var value := ParseBody(p);
        r := L.EAssign(r, value);
      }
    }
  }

  /** An inline body: where the line or the block ends instead, the body is missing. */
  method ParseBody(p: Cursor) returns (r: L.Expr)
    requires p.Valid()
    modifies p
    ensures p.Kept(old(p.i), old(p.panic))
    ensures !old(p.panic) ==> Outcome(L.ParseExpr(old(p.Now())), p.panic, r, p.Now())
    decreases p.Measure(), 8
  {
    ghost var start := p.Now();
    if p.Cur().Newline? || p.Cur().Dedent? || p.Cur().Eof? {
      NoBody(start);
      p.Fault();
    }
    r := ParseStmt(p);
  }

  /** A `let` without `in`, and a discarded value, are statements: no value for a body. */
  method ParseStmt(p: Cursor) returns (r: L.Expr)
    requires p.Valid()
    modifies p
    ensures p.Kept(old(p.i), old(p.panic))
    ensures !old(p.panic) ==> Outcome(L.ParseExpr(old(p.Now())), p.panic, r, p.Now())
    decreases p.Measure(), 7
  {
    if p.Cur().Let? {
      p.Bump();
      r := ParseLetIn(p);
    } else if p.Cur().Underscore? && p.At(1).Equals? {
      NoBody(p.Now());
      p.Bump();
      p.Bump();
      r := ParseBody(p);
      p.Fault();
    } else {
      r := ParseExpr(p);
    }
  }

  lemma NoBody(ts: Stream)
    requires Peek(ts).Newline? || Peek(ts).Dedent? || Peek(ts).Eof? || Peek(ts).Underscore?
    ensures L.ParseExpr(ts) == Fail
  {
    assert L.ParseCore(ts) == Fail;
    assert L.ParseAtom(ts) == Fail;
    assert L.ParseApp(ts) == Fail;
    assert L.ParseChain(ts) == Fail;
  }

  method ParseLambda(p: Cursor) returns (r: L.Expr)
    requires p.Valid()
    modifies p
    ensures p.Kept(old(p.i), old(p.panic))
    ensures !old(p.panic) ==> Outcome(L.ParseLambda(old(p.Now())), p.panic, r, p.Now())
    decreases p.Measure(), 9
  {
    var params := PP.ParseArgs(p);
    var ok := p.Expect(Arrow);
    var body := ParseBody(p);
    r := L.ELambda(params, body);
  }

  method ParseIf(p: Cursor) returns (r: L.Expr)
    requires p.Valid()
    modifies p
    ensures p.Kept(old(p.i), old(p.panic))
    ensures !old(p.panic) ==> Outcome(L.ParseIf(old(p.Now())), p.panic, r, p.Now())
    decreases p.Measure(), 9
  {
    var cond := ParseExpr(p);
    var ok := p.Expect(Then);
    var yes := ParseBody(p);
    ok := p.Expect(Else);
    var no := ParseBody(p);
    r := L.EIf(cond, yes, no);
  }

  method ParseLetIn(p: Cursor) returns (r: L.Expr)
    requires p.Valid()
    modifies p
    ensures p.Kept(old(p.i), old(p.panic))
    ensures !old(p.panic) ==> Outcome(L.ParseLetIn(old(p.Now())), p.panic, r, p.Now())
    decreases p.Measure(), 10
  {
    var bind := ParseBind(p);
    var ok := p.Expect(In);
    var body := ParseBody(p);
    r := L.ELetIn(bind, body);
  }

  method ParseLhs(p: Cursor) returns (l: L.Lhs)
    requires p.Valid()
    modifies p
    ensures p.Kept(old(p.i), old(p.panic))
    ensures !old(p.panic) ==> Outcome(L.ParseLhs(old(p.Now())), p.panic, l, p.Now())
  {
    if p.Cur().VarId? {
      var name := p.Cur().s;
      p.Bump();
      var args := PP.ParseArgs(p);
      l := L.LPrefix(name, args);
    } else {
      var q := PP.ParsePat(p);
      l := L.LPat(q);
    }
  }

  method ParseBind(p: Cursor) returns (b: L.Bind)
    requires p.Valid()
    modifies p
    ensures p.Kept(old(p.i), old(p.panic))
    ensures !old(p.panic) ==> Outcome(L.ParseBind(old(p.Now())), p.panic, b, p.Now())
    decreases p.Measure(), 9
  {
    var lhs := ParseLhs(p);
    var ok := p.Expect(Equals);
    var body := ParseBody(p);
    b := L.Bind(lhs, body);
  }

  method ParseChain(p: Cursor) returns (r: L.Expr)
    requires p.Valid()
    modifies p
    ensures p.Kept(old(p.i), old(p.panic))
    ensures !old(p.panic) ==> Outcome(L.ParseChain(old(p.Now())), p.panic, r, p.Now())
    decreases p.Measure(), 5
  {
    var head := ParseApp(p);
    var ops := [];
    ghost var start := p.Now();
    ghost var ok := !p.panic;
    if !p.panic {
      GatherStart(L.ParseOps(start));
    }
    while AtInfixOp(p) && !p.panic
      invariant p.Kept(old(p.i), old(p.panic)) && (!ok ==> p.panic)
      invariant ok ==> L.ParseOps(start) == if p.panic then Fail else Gathered(ops, L.ParseOps(p.Now()))
      decreases p.Measure(), if p.panic then 0 else 1
    {
      ghost var at := p.Now();
      var op, backtick := ParseOpName(p);
      var rhs := ParseApp(p);
      GatherStep(ops, L.ChainOp(op, backtick, rhs), L.ParseOps(p.Now()));
      ops := ops + [L.ChainOp(op, backtick, rhs)];
    }
    PrependLen(ops, Nil);
    r := if |ops| == 0 then head else L.EChain(head, Prepend(ops, Nil));
  }

  predicate AtInfixOp(p: Cursor)
    reads p
    requires p.Valid()
  {
    p.Cur().VarSym? || p.Cur().ColonColon? || (p.Cur().Backtick? && p.At(1).VarId? && p.At(2).Backtick?)
  }

  method ParseOpName(p: Cursor) returns (op: string, backtick: bool)
    requires p.Valid() && AtInfixOp(p) && !p.panic
    modifies p
    ensures p.Kept(old(p.i), false) && old(p.i) < p.i && !p.panic
    ensures var ts := old(p.Now());
            && backtick == Peek(ts).Backtick?
            && op == (if backtick then Peek2(ts).s else if Peek(ts).ColonColon? then "::" else Peek(ts).s)
            && p.Now() == if backtick then Rest(Rest(Rest(ts))) else Rest(ts)
  {
    backtick := p.Cur().Backtick?;
    if backtick {
      p.Bump();
      op := p.Cur().s;
      p.Bump();
      var ok := p.Expect(Backtick);
    } else {
      op := if p.Cur().ColonColon? then "::" else p.Cur().s;
      p.Bump();
    }
  }

  method ParseApp(p: Cursor) returns (r: L.Expr)
    requires p.Valid()
    modifies p
    ensures p.Kept(old(p.i), old(p.panic))
    ensures !old(p.panic) ==> Outcome(L.ParseApp(old(p.Now())), p.panic, r, p.Now())
    decreases p.Measure(), 4
  {
    if p.Cur().VarSym? {
      p.Bump();
      var body := ParseApp(p);
      r := L.ENeg(body);
      return;
    }
    ghost var start := p.Now();
    r := ParseAtom(p);
    while L.StartsAtom(p.Cur()) && !p.panic
      invariant p.Kept(old(p.i), old(p.panic))
      invariant !old(p.panic) ==> L.ParseApp(start) == if p.panic then Fail else L.ParseArgs(r, p.Now())
      decreases p.Measure(), if p.panic then 0 else 1
    {
      ghost var i0 := p.i;
      var arg := ParseAtom(p);
      LenFrom(p.tok, i0);
      LenFrom(p.tok, p.i);
      r := L.EApp(r, arg);
    }
  }

  method ParseAtom(p: Cursor) returns (r: L.Expr)
    requires p.Valid()
    modifies p
    ensures p.Kept(old(p.i), old(p.panic))
    ensures !old(p.panic) ==> Outcome(L.ParseAtom(old(p.Now())), p.panic, r, p.Now())
    decreases p.Measure(), 3
  {
    ghost var start := p.Now();
    r := ParseCore(p);
    while !p.panic && ((p.Cur().Dot? && (p.At(1).VarId? || p.At(1).ConId?)) || (p.Cur().LBrace? && L.IsConAtom(r)))
      invariant p.Kept(old(p.i), old(p.panic))
      invariant !old(p.panic) ==> L.ParseAtom(start) == if p.panic then Fail else L.ParsePostfix(r, p.Now())
      decreases p.Measure(), if p.panic then 0 else 1
    {
      if p.Cur().Dot? {
        p.Bump();
        r := L.EDot(r, p.Cur().s, p.Cur().ConId?);
        p.Bump();
      } else {
        p.Bump();
        r := ParseRecord(p, r);
      }
    }
  }

  method ParseCore(p: Cursor) returns (r: L.Expr)
    requires p.Valid()
    modifies p
    ensures p.Kept(old(p.i), old(p.panic))
    ensures !old(p.panic) ==> Outcome(L.ParseCore(old(p.Now())), p.panic, r, p.Now())
    decreases p.Measure(), 0
  {
    if p.Cur().VarId? {
      r := L.EVar(p.Cur().s);
      p.Bump();
    } else if p.Cur().ConId? {
      r := L.ECon(p.Cur().s);
      p.Bump();
    } else if p.Cur().IntLit? {
      r := L.EInt(p.Cur().v);
      p.Bump();
    } else if p.Cur().StrLit? {
      r := L.EStr(p.Cur().s);
      p.Bump();
    } else if p.Cur().CharLit? {
      r := L.EChar(p.Cur().s);
      p.Bump();
    } else if p.Cur().LParen? {
      p.Bump();
      r := ParseParens(p);
    } else if p.Cur().LBracket? {
      p.Bump();
      r := ParseBrackets(p);
    } else {
      p.Fault();
      r := L.EErr;
    }
  }

  method ParseParens(p: Cursor) returns (r: L.Expr)
    requires p.Valid()
    modifies p
    ensures p.Kept(old(p.i), old(p.panic))
    ensures !old(p.panic) ==> Outcome(L.ParseParens(old(p.Now())), p.panic, r, p.Now())
    decreases p.Measure(), 8
  {
    if p.Cur().RParen? {
      p.Bump();
      r := L.EUnit;
    } else if p.Cur().VarSym? && p.At(1).RParen? {
      r := L.EOpRef(p.Cur().s);
      p.Bump();
      p.Bump();
    } else {
      var items := ParseItems(p);
      var ok := p.Expect(RParen);
      PrependSingle(items);
      r := if |items| == 1 then items[0] else L.ETuple(Prepend(items, Nil));
    }
  }

  method ParseBrackets(p: Cursor) returns (r: L.Expr)
    requires p.Valid()
    modifies p
    ensures p.Kept(old(p.i), old(p.panic))
    ensures !old(p.panic) ==> Outcome(L.ParseBrackets(old(p.Now())), p.panic, r, p.Now())
    decreases p.Measure(), 8
  {
    var items := [];
    if !p.Cur().RBracket? && !p.panic {
      items := ParseItems(p);
    }
    var ok := p.Expect(RBracket);
    r := L.EList(Prepend(items, Nil));
  }

  method ParseItems(p: Cursor) returns (items: seq<L.Expr>)
    requires p.Valid()
    modifies p
    ensures p.Kept(old(p.i), old(p.panic)) && |items| > 0
    ensures !old(p.panic) ==> Outcome(L.ParseItems(old(p.Now())), p.panic, Prepend(items, Nil), p.Now())
    decreases p.Measure(), 7
  {
    ghost var start := p.Now();
    var e := ParseExpr(p);
    items := [e];
    JoinedOne(e, p.Cur().Comma?, p.Now(), L.ParseItems(Rest(p.Now())));
    while p.Cur().Comma? && !p.panic
      invariant p.Kept(old(p.i), old(p.panic)) && |items| > 0
      invariant !old(p.panic) ==>
                  L.ParseItems(start) ==
                  if p.panic then Fail else Joined(items, p.Cur().Comma?, p.Now(), L.ParseItems(Rest(p.Now())))
      decreases p.Measure(), if p.panic then 0 else 1
    {
      ghost var at := p.Now();
      p.Bump();
      e := ParseExpr(p);
      JoinedStep(items, e, p.Cur().Comma?, p.Now(), L.ParseItems(Rest(p.Now())), at);
      items := items + [e];
    }
  }

  /** After the `{`. */
  method ParseRecord(p: Cursor, path: L.Expr) returns (r: L.Expr)
    requires p.Valid()
    modifies p
    ensures p.Kept(old(p.i), old(p.panic))
    ensures !old(p.panic) ==> Outcome(L.ParseRecord(path, old(p.Now())), p.panic, r, p.Now())
    decreases p.Measure(), 9
  {
    var spread := None;
    if p.Cur().DotDot? {
      p.Bump();
      var e := ParseExpr(p);
      spread := Some(e);
      if p.Cur().Comma? {
        p.Bump();
      }
    }
    r := ParseBraced(p, path, spread);
  }

  method ParseBraced(p: Cursor, path: L.Expr, spread: Option<L.Expr>) returns (r: L.Expr)
    requires p.Valid()
    modifies p
    ensures p.Kept(old(p.i), old(p.panic))
    ensures !old(p.panic) ==> Outcome(L.ParseBraced(path, spread, old(p.Now())), p.panic, r, p.Now())
    decreases p.Measure(), 8
  {
    var fields := Nil;
    if !p.Cur().RBrace? && !p.panic {
      fields := ParseFields(p);
    }
    var ok := p.Expect(RBrace);
    r := L.ERecord(path, spread, fields);
  }

  method ParseFields(p: Cursor) returns (fields: List<L.Field>)
    requires p.Valid()
    modifies p
    ensures p.Kept(old(p.i), old(p.panic))
    ensures !old(p.panic) ==> Outcome(L.ParseFields(old(p.Now())), p.panic, fields, p.Now())
    decreases p.Measure(), 7
  {
    ghost var start := p.Now();
    var x := ParseField(p);
    var buf := [x];
    JoinedOne(x, p.Cur().Comma?, p.Now(), L.ParseFields(Rest(p.Now())));
    while p.Cur().Comma? && !p.panic
      invariant p.Kept(old(p.i), old(p.panic))
      invariant !old(p.panic) ==>
                  L.ParseFields(start) ==
                  if p.panic then Fail else Joined(buf, p.Cur().Comma?, p.Now(), L.ParseFields(Rest(p.Now())))
      decreases p.Measure(), if p.panic then 0 else 1
    {
      ghost var at := p.Now();
      p.Bump();
      x := ParseField(p);
      JoinedStep(buf, x, p.Cur().Comma?, p.Now(), L.ParseFields(Rest(p.Now())), at);
      buf := buf + [x];
    }
    fields := Prepend(buf, Nil);
  }

  method ParseField(p: Cursor) returns (x: L.Field)
    requires p.Valid()
    modifies p
    ensures p.Kept(old(p.i), old(p.panic))
    ensures !old(p.panic) ==> Outcome(L.ParseField(old(p.Now())), p.panic, x, p.Now())
    decreases p.Measure(), 6
  {
    var name := "";
    if p.Cur().VarId? {
      name := p.Cur().s;
      p.Bump();
    } else {
      p.Fault();
    }
    if p.Cur().Equals? {
      p.Bump();
      var e := ParseExpr(p);
      x := L.Field(name, e);
    } else {
      x := L.Field(name, L.EVar(name));
    }
  }
}
