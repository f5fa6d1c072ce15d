/**
  The printer's recursion as the source runs it (p_node and p_node_inner, grammar/c/wok_print.c:1120-1880,
  2035-2060), appending tokens to a sink. Each method writes exactly what the ladder's `Print`
  says, in front of anything; white space, line breaks and widths are not tokens.
*/
module Printer {
  import opened Tokens
  import T = TypeLadder
  import P = PatternLadder
  import E = ExprLadder

  class Sink {
    var buf: seq<Token>

    constructor ()
      ensures buf == []
    {
      buf := [];
    }

    method Put(t: Token)
      modifies this
      ensures forall rest :: Prepend(buf, rest) == Prepend(old(buf), Cons(t, rest))
    {
      buf := buf + [t];
      assert (old(buf) + [t])[..|old(buf)|] == old(buf);
    }

    method PutPath(path: List<string>)
      modifies this
      ensures forall rest :: Prepend(buf, rest) == Prepend(old(buf), PrintPath(path, rest))
    {
      hide Prepend;
      if path.Cons? {
        Put(ConId(path.head));
        if path.tail.Cons? {
          Put(Dot);
          PutPath(path.tail);
        }
      }
    }
  }

  // ---------------------------------------------------------------- types

  method PType(p: Sink, t: T.Ty, prec: nat)
    modifies p
    ensures forall rest :: Prepend(p.buf, rest) == Prepend(old(p.buf), T.Print(t, prec, rest))
    decreases t, 1
  {
    hide Prepend, T.Inner;
    var paren := T.Prec(t) < prec;
    if paren {
      p.Put(LParen);
    }
    PTypeInner(p, t);
    if paren {
      p.Put(RParen);
    }
  }

  method PTypeInner(p: Sink, t: T.Ty)
    modifies p
    ensures forall rest :: Prepend(p.buf, rest) == Prepend(old(p.buf), T.Inner(t, rest))
    decreases t, 0
  {
    hide Prepend, T.Print, T.PrintRow, T.PrintItems, PrintPath;
    match t
    case TErr =>
    case TVar(x) => p.Put(VarId(x));
    case TCon(path) => p.PutPath(path);
    case TApp(fn, arg) =>
      PType(p, fn, T.TP_APP);
      PType(p, arg, T.TP_ATOM);
    case TFun(from, to) =>
      PType(p, from, T.TP_APP);
      p.Put(Arrow);
      PType(p, to, T.TP_ARROW);
    case TQual(ctx, body) =>
      PType(p, ctx, T.TP_ARROW);
      p.Put(FatArrow);
      PType(p, body, T.TP_TYPE);
    case TWith(body, row) =>
      PType(p, body, T.TP_ARROW);
      p.Put(With);
      PRow(p, row);
    case TList(elem) =>
      p.Put(LBracket);
      PType(p, elem, T.TP_TYPE);
      p.Put(RBracket);
    case TTuple(items) =>
      p.Put(LParen);
      PTypes(p, items);
      p.Put(RParen);
    case TUnit =>
      p.Put(LParen);
      p.Put(RParen);
    case TRowArg(x) =>
      p.Put(LParen);
      p.Put(VarId("row"));
      p.Put(VarId(x));
      p.Put(RParen);
    case TTransfer(m, body) =>
      p.Put(VarId(T.Word(m)));
      PType(p, body, T.TP_APP);
  }

  method PTypes(p: Sink, items: List<T.Ty>)
    modifies p
    ensures forall rest :: Prepend(p.buf, rest) == Prepend(old(p.buf), T.PrintItems(items, rest))
    decreases items, 2
  {
    hide Prepend, T.Print;
    if items.Cons? {
      PType(p, items.head, T.TP_TYPE);
      if items.tail.Cons? {
        p.Put(Comma);
        PTypes(p, items.tail);
      }
    }
  }

  method PRow(p: Sink, row: List<T.Row>)
    modifies p
    ensures forall rest :: Prepend(p.buf, rest) == Prepend(old(p.buf), T.PrintRow(row, rest))
    decreases row, 2
  {
    hide Prepend, T.PrintEntry;
    if row.Cons? {
      PEntry(p, row.head);
      if row.tail.Cons? {
        p.Put(VarSym("+"));
        PRow(p, row.tail);
      }
    }
  }

  method PEntry(p: Sink, e: T.Row)
    modifies p
    ensures forall rest :: Prepend(p.buf, rest) == Prepend(old(p.buf), T.PrintEntry(e, rest))
    decreases e, 2
  {
    hide Prepend, T.Print;
    match e
    case Role(x, t) =>
      p.Put(LParen);
      p.Put(VarId(x));
      p.Put(Colon);
      PType(p, t, T.TP_APP);
      p.Put(RParen);
    case EffVar(x) =>
      p.Put(VarId("eff"));
      p.Put(VarId(x));
    case Slot(t) => PType(p, t, T.TP_APP);
  }

  // ---------------------------------------------------------------- patterns

  method PPat(p: Sink, q: P.Pat, prec: nat, lead: bool)
    modifies p
    ensures forall rest :: Prepend(p.buf, rest) == Prepend(old(p.buf), P.Print(q, prec, lead, rest))
    decreases q, 2
  {
    hide Prepend, P.Inner;
    var paren := P.Prec(q) < prec || (lead && P.NeedsLeadParen(q));
    if paren {
      p.Put(LParen);
    }
    PPatInner(p, q, lead && !paren);
    if paren {
      p.Put(RParen);
    }
  }

  method PPatInner(p: Sink, q: P.Pat, lead: bool)
    modifies p
    ensures forall rest :: Prepend(p.buf, rest) == Prepend(old(p.buf), P.Inner(q, lead, rest))
    decreases q, 1
  {
    hide Prepend, P.Print, P.PrintArgs, P.PrintItems, PrintPath;
    match q
    case PCon(path, args) =>
      p.PutPath(path);
      PArgs(p, args, false);
    case PCons(h, t) =>
      PPat(p, h, P.PP_APP, lead);
      p.Put(ColonColon);
      PPat(p, t, P.PP_PAT, false);
    case PTuple(items) =>
      p.Put(LParen);
      PPats(p, items);
      p.Put(RParen);
    case PList(items) =>
      p.Put(LBracket);
      PPats(p, items);
      p.Put(RBracket);
    case PAs(r, x) =>
      PPat(p, r, P.PP_ATOM, lead);
      p.Put(As);
      p.Put(VarId(x));
    case PRecord(path, _, _, _) =>
      p.PutPath(path);
      PRecordPat(p, q);
    case _ => PPatLeaf(p, q, lead);
  }

  /** What follows a record pattern's path. */
  method PRecordPat(p: Sink, q: P.Pat)
    requires q.PRecord?
    modifies p
    ensures forall rest :: Prepend(p.buf, rest) == Prepend(old(p.buf), Cons(LBrace, P.PrintInside(q, rest)))
    decreases q, 0
  {
    hide Prepend, P.PrintFields, P.PrintOpen;
    p.Put(LBrace);
    POpen(p, q.open, q.remainder, q.fields.Cons?);
    PFields(p, q.fields);
    p.Put(RBrace);
  }

  method PPatLeaf(p: Sink, q: P.Pat, ghost lead: bool)
    requires q.PErr? || q.PVar? || q.PWild? || q.PInt? || q.PStr? || q.PChar? || q.PUnit?
    modifies p
    ensures forall rest :: Prepend(p.buf, rest) == Prepend(old(p.buf), P.Inner(q, lead, rest))
  {
    hide Prepend;
    if q.PVar? {
      p.Put(VarId(q.name));
    } else if q.PWild? {
      p.Put(Underscore);
    } else if q.PInt? {
      if q.negative {
        p.Put(VarSym("-"));
      }
      p.Put(IntLit(q.value));
    } else if q.PStr? {
      p.Put(StrLit(q.text));
    } else if q.PChar? {
      p.Put(CharLit(q.text));
    } else if q.PUnit? {
      p.Put(LParen);
      p.Put(RParen);
    }
  }

  method POpen(p: Sink, open: bool, remainder: Option<string>, more: bool)
    modifies p
    ensures forall rest :: Prepend(p.buf, rest) == Prepend(old(p.buf), P.PrintOpen(open, remainder, more, rest))
  {
    hide Prepend;
    if open {
      p.Put(DotDot);
      if remainder.Some? {
        p.Put(VarId(remainder.value));
      }
      if more {
        p.Put(Comma);
      }
    }
  }

  method PArgs(p: Sink, args: List<P.Pat>, guard: bool)
    modifies p
    ensures forall rest :: Prepend(p.buf, rest) == Prepend(old(p.buf), P.PrintArgs(args, guard, rest))
    decreases args, 3
  {
    hide Prepend, P.Print;
    if args.Cons? {
      PPat(p, args.head, P.PP_ATOM, guard);
      PArgs(p, args.tail, false);
    }
  }

  method PPats(p: Sink, items: List<P.Pat>)
    modifies p
    ensures forall rest :: Prepend(p.buf, rest) == Prepend(old(p.buf), P.PrintItems(items, rest))
    decreases items, 3
  {
    hide Prepend, P.Print;
    if items.Cons? {
      PPat(p, items.head, P.PP_PAT, false);
      if items.tail.Cons? {
        p.Put(Comma);
        PPats(p, items.tail);
      }
    }
  }

  method PFields(p: Sink, fields: List<P.FieldPat>)
    modifies p
    ensures forall rest :: Prepend(p.buf, rest) == Prepend(old(p.buf), P.PrintFields(fields, rest))
    decreases fields, 3
  {
    hide Prepend, P.PrintField;
    if fields.Cons? {
      PField(p, fields.head);
      if fields.tail.Cons? {
        p.Put(Comma);
        PFields(p, fields.tail);
      }
    }
  }

  method PField(p: Sink, x: P.FieldPat)
    modifies p
    ensures forall rest :: Prepend(p.buf, rest) == Prepend(old(p.buf), P.PrintField(x, rest))
    decreases x, 3
  {
    hide Prepend, P.Print;
    p.Put(VarId(x.name));
    if x.pat != P.PVar(x.name) {
      p.Put(Equals);
      PPat(p, x.pat, P.PP_PAT, false);
    }
  }

  // ---------------------------------------------------------------- expressions

  method PExpr(p: Sink, e: E.Expr, prec: nat, lead: bool)
    modifies p
    ensures forall rest :: Prepend(p.buf, rest) == Prepend(old(p.buf), E.Print(e, prec, lead, rest))
    decreases e, 2
  {
    hide Prepend, E.Inner;
    var paren := E.Prec(e) < prec || (lead && e.ENeg?);
    if paren {
      p.Put(LParen);
    }
    PExprInner(p, e, lead && !paren);
    if paren {
      p.Put(RParen);
    }
  }

  method PExprInner(p: Sink, e: E.Expr, lead: bool)
    modifies p
    ensures forall rest :: Prepend(p.buf, rest) == Prepend(old(p.buf), E.Inner(e, lead, rest))
    decreases e, 1
  {
    hide Prepend, E.Print, E.PrintOps, E.PrintItems, E.PrintInside, E.PrintLhs, P.PrintArgs, E.NameToken, E.SymbolToken;
    match e
    case EApp(fn, arg) =>
      PExpr(p, fn, E.EP_APP, lead);
      PExpr(p, arg, E.EP_ATOM, false);
    case EChain(head, ops) =>
      PExpr(p, head, E.EP_NEG, lead);
      POps(p, ops);
    case EDot(recv, x, upper) =>
      PExpr(p, recv, E.EP_ATOM, lead);
      p.Put(Dot);
      p.Put(E.NameToken(upper, x));
    case ENeg(body) =>
      p.Put(VarSym("-"));
      PExpr(p, body, E.EP_APP, false);
    case EList(items) =>
      p.Put(LBracket);
      PExprs(p, items);
      p.Put(RBracket);
    case ETuple(items) =>
      p.Put(LParen);
      PExprs(p, items);
      p.Put(RParen);
    case ERecord(path, _, _) =>
      PExpr(p, path, E.EP_ATOM, lead);
      p.Put(LBrace);
      PInside(p, e);
    case ELambda(params, body) =>
      p.Put(Lambda);
      PArgs(p, params, false);
      p.Put(Arrow);
      PExpr(p, body, E.EP_EXPR, false);
    case EIf(c, t, n) =>
      p.Put(If);
      PExpr(p, c, E.EP_EXPR, false);
      p.Put(Then);
      PExpr(p, t, E.EP_EXPR, false);
      p.Put(Else);
      PExpr(p, n, E.EP_EXPR, false);
    case ELetIn(bind, body) =>
      p.Put(Let);
      PLhs(p, bind.lhs);
      p.Put(Equals);
      PExpr(p, bind.body, E.EP_EXPR, false);
      p.Put(In);
      PExpr(p, body, E.EP_EXPR, false);
    case EAssign(target, value) =>
      PExpr(p, target, E.EP_CHAIN, lead);
      p.Put(Assign);
      PExpr(p, value, E.EP_EXPR, false);
    case _ => PExprLeaf(p, e, lead);
  }

  method PExprLeaf(p: Sink, e: E.Expr, ghost lead: bool)
    requires e.EErr? || e.EVar? || e.ECon? || e.EInt? || e.EStr? || e.EChar? || e.EUnit? || e.EOpRef?
    modifies p
    ensures forall rest :: Prepend(p.buf, rest) == Prepend(old(p.buf), E.Inner(e, lead, rest))
  {
    hide Prepend, E.SymbolToken;
    if e.EVar? {
      p.Put(VarId(e.name));
    } else if e.ECon? {
      p.Put(ConId(e.name));
    } else if e.EInt? {
      p.Put(IntLit(e.v));
    } else if e.EStr? {
      p.Put(StrLit(e.text));
    } else if e.EChar? {
      p.Put(CharLit(e.text));
    } else if e.EUnit? {
      p.Put(LParen);
      p.Put(RParen);
    } else if e.EOpRef? {
      p.Put(LParen);
      p.Put(E.SymbolToken(e.name));
      p.Put(RParen);
    }
  }

  method POps(p: Sink, ops: List<E.ChainOp>)
    modifies p
    ensures forall rest :: Prepend(p.buf, rest) == Prepend(old(p.buf), E.PrintOps(ops, rest))
    decreases ops, 3
  {
    hide Prepend, E.Print, E.IsWord, E.NameToken, E.SymbolToken;
    if ops.Cons? {
      var op := ops.head.op;
      if E.IsWord(op) {
        p.Put(Backtick);
        p.Put(E.NameToken(E.IsUpper(op), op));
        p.Put(Backtick);
      } else {
        p.Put(E.SymbolToken(op));
      }
      PExpr(p, ops.head.rhs, E.EP_NEG, false);
      POps(p, ops.tail);
    }
  }

  method PExprs(p: Sink, items: List<E.Expr>)
    modifies p
    ensures forall rest :: Prepend(p.buf, rest) == Prepend(old(p.buf), E.PrintItems(items, rest))
    decreases items, 3
  {
    hide Prepend, E.Print;
    if items.Cons? {
      PExpr(p, items.head, E.EP_EXPR, false);
      if items.tail.Cons? {
        p.Put(Comma);
        PExprs(p, items.tail);
      }
    }
  }

  method PSpread(p: Sink, e: E.Expr, more: bool)
    modifies p
    ensures forall rest ::
              Prepend(p.buf, rest) ==
              Prepend(old(p.buf), Cons(DotDot, E.Print(e, E.EP_EXPR, false, if more then Cons(Comma, rest) else rest)))
    decreases e, 3
  {
    hide Prepend, E.Print;
    p.Put(DotDot);
    PExpr(p, e, E.EP_EXPR, false);
    if more {
      p.Put(Comma);
    }
  }

  /** Spread, fields and the closing brace of a record. */
  method PInside(p: Sink, e: E.Expr)
    requires e.ERecord?
    modifies p
    ensures forall rest :: Prepend(p.buf, rest) == Prepend(old(p.buf), E.PrintInside(e, rest))
    decreases e, 0
  {
    hide Prepend, E.Print, E.PrintFields;
    if e.spread.Some? {
      PSpread(p, e.spread.value, e.fields.Cons?);
    }
    PExprFields(p, e.fields);
    p.Put(RBrace);
  }

  method PExprFields(p: Sink, fields: List<E.Field>)
    modifies p
    ensures forall rest :: Prepend(p.buf, rest) == Prepend(old(p.buf), E.PrintFields(fields, rest))
    decreases fields, 3
  {
    hide Prepend, E.PrintField;
    if fields.Cons? {
      PExprField(p, fields.head);
      if fields.tail.Cons? {
        p.Put(Comma);
        PExprFields(p, fields.tail);
      }
    }
  }

  method PExprField(p: Sink, x: E.Field)
    modifies p
    ensures forall rest :: Prepend(p.buf, rest) == Prepend(old(p.buf), E.PrintField(x, rest))
    decreases x, 3
  {
    hide Prepend, E.Print;
    p.Put(VarId(x.name));
    if x.value != E.EVar(x.name) {
      p.Put(Equals);
      PExpr(p, x.value, E.EP_EXPR, false);
    }
  }

  method PLhs(p: Sink, l: E.Lhs)
    modifies p
    ensures forall rest :: Prepend(p.buf, rest) == Prepend(old(p.buf), E.PrintLhs(l, rest))
  {
    hide Prepend, P.Print, P.PrintArgs;
    match l
    case LPrefix(x, args) =>
      p.Put(VarId(x));
      PArgs(p, args, true);
    case LPat(q) => PPat(p, q, P.PP_PAT, false);
  }
}
