/**
  Expressions between the printer and the parser: grammar/c/wok_print.c:392-560, 1674-1880
  and 2013-2060, grammar/c/wok_parse.c:1049-1345. One form does not come back: a binding
  whose pattern starts with a name, because the bracket that made it a pattern is not printed.
*/
module ExprLadder {
  import opened Tokens
  import P = PatternLadder

  datatype Expr =
    | EErr
    | EVar(name: string)
    | ECon(name: string)
    | EInt(v: nat)
    | EStr(text: string)
    | EChar(text: string)
    | EUnit
    | EOpRef(name: string)
    | EApp(fn: Expr, arg: Expr)
    | EChain(head: Expr, ops: List<ChainOp>)
    | EDot(recv: Expr, name: string, upper: bool)
    | ENeg(body: Expr)
    | EList(items: List<Expr>)
    | ETuple(items: List<Expr>)
    | ERecord(path: Expr, spread: Option<Expr>, fields: List<Field>)
    | ELambda(params: List<P.Pat>, body: Expr)
    | EIf(cond: Expr, yes: Expr, no: Expr)
    | ELetIn(bind: Bind, body: Expr)
    | EAssign(target: Expr, value: Expr)

  datatype ChainOp = ChainOp(op: string, backtick: bool, rhs: Expr)

  datatype Field = Field(name: string, value: Expr)

  datatype Lhs = LPrefix(name: string, args: List<P.Pat>) | LPat(pat: P.Pat)

  datatype Bind = Bind(lhs: Lhs, body: Expr)

  // ---------------------------------------------------------------- spellings

  /** A name can only have been written between backticks, a symbol run only bare. */
  predicate IsWord(op: string)
  {
    |op| > 0 && ('a' <= op[0] <= 'z' || 'A' <= op[0] <= 'Z' || op[0] == '_' || op[0] as int >= 0x80)
  }

  function NameToken(upper: bool, name: string): Token
  {
    if upper then ConId(name) else VarId(name)
  }

  function SymbolToken(op: string): Token
  {
    if op == "::" then ColonColon else VarSym(op)
  }

  predicate IsUpper(name: string)
  {
    |name| > 0 && 'A' <= name[0] <= 'Z'
  }

  // ---------------------------------------------------------------- what the parser's own nodes guarantee

  predicate IsConAtom(e: Expr)
  {
    e.ECon? || (e.EDot? && e.upper)
  }

  predicate Wf(e: Expr)
    decreases e
  {
    match e
    case EErr => false
    case EOpRef(x) => x != "::"
    case EApp(fn, arg) => Wf(fn) && Wf(arg)
    case EChain(head, ops) => Wf(head) && ops.Cons? && WfOps(ops)
    case EDot(recv, _, _) => Wf(recv)
    case ENeg(body) => Wf(body)
    case EList(items) => WfAll(items)
    case ETuple(items) => items.Cons? && items.tail.Cons? && WfAll(items)
    case ERecord(path, spread, fields) =>
      IsConAtom(path) && Wf(path) && (spread.Some? ==> Wf(spread.value)) && WfFields(fields)
    case ELambda(params, body) => P.WfAll(params) && Wf(body)
    case EIf(c, t, n) => Wf(c) && Wf(t) && Wf(n)
    case ELetIn(bind, body) => WfLhs(bind.lhs) && Wf(bind.body) && Wf(body)
    case EAssign(target, value) => Wf(target) && Wf(value)
    case _ => true
  }

  predicate WfOps(ops: List<ChainOp>)
    decreases ops
  {
    ops.Nil? || (WfSpelling(ops.head) && Wf(ops.head.rhs) && WfOps(ops.tail))
  }

  /** The stored flag agrees with the spelling, and only a lower-case name stands between backticks. */
  predicate WfSpelling(o: ChainOp)
  {
    o.backtick == IsWord(o.op) && !IsUpper(o.op)
  }

  predicate WfAll(es: List<Expr>)
    decreases es
  {
    es.Nil? || (Wf(es.head) && WfAll(es.tail))
  }

  predicate WfFields(fs: List<Field>)
    decreases fs
  {
    fs.Nil? || (Wf(fs.head.value) && WfFields(fs.tail))
  }

  predicate WfLhs(l: Lhs)
  {
    if l.LPrefix? then P.WfAll(l.args) else P.Wf(l.pat)
  }

  // ---------------------------------------------------------------- the printer

  const EP_EXPR := 0
  const EP_CHAIN := 1
  const EP_NEG := 2
  const EP_APP := 3
  const EP_ATOM := 4

  function Prec(e: Expr): nat
  {
    match e
    case EApp(_, _) => EP_APP
    case ENeg(_) => EP_NEG
    case EChain(_, _) => EP_CHAIN
    case ELambda(_, _) => EP_EXPR
    case EIf(_, _, _) => EP_EXPR
    case ELetIn(_, _) => EP_EXPR
    case EAssign(_, _) => EP_EXPR
    case _ => EP_ATOM
  }

  /** Bracketed because the position demands more, or because a leading `-` would be misread. */
  predicate Bracketed(e: Expr, prec: nat, lead: bool)
  {
    Prec(e) < prec || (lead && e.ENeg?)
  }

  function Print(e: Expr, prec: nat, lead: bool, rest: Stream): Stream
    decreases e, 2
  {
    if Bracketed(e, prec, lead) then Cons(LParen, Inner(e, false, Cons(RParen, rest))) else Inner(e, lead, rest)
  }

  function Inner(e: Expr, lead: bool, rest: Stream): Stream
    decreases e, 1
  {
    match e
    case EErr => rest
    case EVar(x) => Cons(VarId(x), rest)
    case ECon(x) => Cons(ConId(x), rest)
    case EInt(v) => Cons(IntLit(v), rest)
    case EStr(s) => Cons(StrLit(s), rest)
    case EChar(s) => Cons(CharLit(s), rest)
    case EUnit => Cons(LParen, Cons(RParen, rest))
    case EOpRef(x) => Cons(LParen, Cons(SymbolToken(x), Cons(RParen, rest)))
    case EApp(fn, arg) => Print(fn, EP_APP, lead, Print(arg, EP_ATOM, false, rest))
    case EChain(head, ops) => Print(head, EP_NEG, lead, PrintOps(ops, rest))
    case EDot(recv, x, upper) => Print(recv, EP_ATOM, lead, Cons(Dot, Cons(NameToken(upper, x), rest)))
    case ENeg(body) => Cons(VarSym("-"), Print(body, EP_APP, false, rest))
    case EList(items) => Cons(LBracket, PrintItems(items, Cons(RBracket, rest)))
    case ETuple(items) => Cons(LParen, PrintItems(items, Cons(RParen, rest)))
    case ERecord(path, spread, fields) => Print(path, EP_ATOM, lead, Cons(LBrace, PrintInside(e, rest)))
    case ELambda(params, body) =>
      Cons(Lambda, P.PrintArgs(params, false, Cons(Arrow, Print(body, EP_EXPR, false, rest))))
    case EIf(c, t, n) =>
      Cons(If, Print(c, EP_EXPR, false, Cons(Then, Print(t, EP_EXPR, false,
        Cons(Else, Print(n, EP_EXPR, false, rest))))))
    case ELetIn(bind, body) =>
      Cons(Let, PrintLhs(bind.lhs, Cons(Equals, Print(bind.body, EP_EXPR, false,
        Cons(In, Print(body, EP_EXPR, false, rest))))))
    case EAssign(target, value) => Print(target, EP_CHAIN, lead, Cons(Assign, Print(value, EP_EXPR, false, rest)))
  }

  function PrintOp(op: string, rest: Stream): Stream
  {
    if IsWord(op) then Cons(Backtick, Cons(NameToken(IsUpper(op), op), Cons(Backtick, rest)))
    else Cons(SymbolToken(op), rest)
  }

  function PrintOps(ops: List<ChainOp>, rest: Stream): Stream
    decreases ops, 3
  {
    match ops
    case Nil => rest
    case Cons(o, os) => PrintOp(o.op, Print(o.rhs, EP_NEG, false, PrintOps(os, rest)))
  }

  function PrintItems(items: List<Expr>, rest: Stream): Stream
    decreases items, 3
  {
    match items
    case Nil => rest
    case Cons(e, es) => Print(e, EP_EXPR, false, if es == Nil then rest else Cons(Comma, PrintItems(es, rest)))
  }

  /** After the `{` of a record. */
  function PrintInside(e: Expr, rest: Stream): Stream
    requires e.ERecord?
    decreases e, 0
  {
    var fields := PrintFields(e.fields, Cons(RBrace, rest));
    if e.spread.None? then fields
    else Cons(DotDot, Print(e.spread.value, EP_EXPR, false, if e.fields.Cons? then Cons(Comma, fields) else fields))
  }

  function PrintFields(fields: List<Field>, rest: Stream): Stream
    decreases fields, 3
  {
    match fields
    case Nil => rest
    case Cons(x, xs) => PrintField(x, if xs == Nil then rest else Cons(Comma, PrintFields(xs, rest)))
  }

  /** A field given the variable of its own name is punned. */
  function PrintField(x: Field, rest: Stream): Stream
    decreases x, 3
  {
    if x.value == EVar(x.name) then Cons(VarId(x.name), rest)
    else Cons(VarId(x.name), Cons(Equals, Print(x.value, EP_EXPR, false, rest)))
  }

  function PrintLhs(l: Lhs, rest: Stream): Stream
  {
    match l
    case LPrefix(x, args) => Cons(VarId(x), P.PrintArgs(args, true, rest))
    case LPat(p) => P.Print(p, P.PP_PAT, false, rest)
  }

  // ---------------------------------------------------------------- the parser

  predicate StartsAtom(t: Token)
  {
    t.VarId? || t.ConId? || t.IntLit? || t.StrLit? || t.CharLit? || t.LParen? || t.LBracket?
  }

  predicate AtInfixOp(ts: Stream)
  {
    Peek(ts).VarSym? || Peek(ts).ColonColon? || (Peek(ts).Backtick? && Peek2(ts).VarId? && Peek3(ts).Backtick?)
  }

  function ParseExpr(ts: Stream): (r: Result<Expr>)
    ensures r.Ok? ==> Len(r.rest) < Len(ts)
    decreases Len(ts), 6
  {
    match Peek(ts)
    case Lambda => ParseLambda(Rest(ts))
    case Let => ParseLetIn(Rest(ts))
    case If => ParseIf(Rest(ts))
    case _ =>
      match ParseChain(ts)
      case Fail => Fail
      case Ok(e, rest) =>
        if !Peek(rest).Assign? then Ok(e, rest)
        else
          match ParseExpr(Rest(rest))
          case Fail => Fail
          case Ok(value, rest') => Ok(EAssign(e, value), rest')
  }

  function ParseLambda(ts: Stream): (r: Result<Expr>)
    ensures r.Ok? ==> Len(r.rest) <= Len(ts)
    decreases Len(ts), 8
  {
    match P.ParseArgs(ts)
    case Fail => Fail
    case Ok(params, rest) =>
      if !Peek(rest).Arrow? then Fail
      else
        match ParseExpr(Rest(rest))
        case Fail => Fail
        case Ok(body, rest') => Ok(ELambda(params, body), rest')
  }

  function ParseIf(ts: Stream): (r: Result<Expr>)
    ensures r.Ok? ==> Len(r.rest) <= Len(ts)
    decreases Len(ts), 8
  {
    match ParseExpr(ts)
    case Fail => Fail
    case Ok(c, rest) =>
      if !Peek(rest).Then? then Fail
      else
        match ParseExpr(Rest(rest))
        case Fail => Fail
        case Ok(t, rest') =>
          if !Peek(rest').Else? then Fail
          else
            match ParseExpr(Rest(rest'))
            case Fail => Fail
            case Ok(n, rest'') => Ok(EIf(c, t, n), rest'')
  }

  function ParseLhs(ts: Stream): (r: Result<Lhs>)
    ensures r.Ok? ==> Len(r.rest) < Len(ts)
  {
    if Peek(ts).VarId? then
      match P.ParseArgs(Rest(ts))
      case Fail => Fail
      case Ok(args, rest) => Ok(LPrefix(Peek(ts).s, args), rest)
    else
      match P.ParsePat(ts)
      case Fail => Fail
      case Ok(p, rest) => Ok(LPat(p), rest)
  }

  function ParseBind(ts: Stream): (r: Result<Bind>)
    ensures r.Ok? ==> Len(r.rest) < Len(ts)
    decreases Len(ts), 7
  {
    match ParseLhs(ts)
    case Fail => Fail
    case Ok(lhs, rest) =>
      if !Peek(rest).Equals? then Fail
      else
        match ParseExpr(Rest(rest))
        case Fail => Fail
        case Ok(body, rest') => Ok(Bind(lhs, body), rest')
  }

  function ParseLetIn(ts: Stream): (r: Result<Expr>)
    ensures r.Ok? ==> Len(r.rest) <= Len(ts)
    decreases Len(ts), 8
  {
    match ParseBind(ts)
    case Fail => Fail
    case Ok(bind, rest) =>
      if !Peek(rest).In? then Fail
      else
        match ParseExpr(Rest(rest))
        case Fail => Fail
        case Ok(body, rest') => Ok(ELetIn(bind, body), rest')
  }

  function ParseChain(ts: Stream): (r: Result<Expr>)
    ensures r.Ok? ==> Len(r.rest) < Len(ts)
    decreases Len(ts), 5
  {
    match ParseApp(ts)
    case Fail => Fail
    case Ok(head, rest) =>
      match ParseOps(rest)
      case Fail => Fail
      case Ok(ops, rest') => Ok(if ops == Nil then head else EChain(head, ops), rest')
  }

  function ParseOps(ts: Stream): (r: Result<List<ChainOp>>)
    ensures r.Ok? ==> Len(r.rest) <= Len(ts)
    decreases Len(ts), 5
  {
    if !AtInfixOp(ts) then Ok(Nil, ts)
    else
      var backtick := Peek(ts).Backtick?;
      var op := if backtick then Peek2(ts).s else if Peek(ts).ColonColon? then "::" else Peek(ts).s;
      match ParseApp(if backtick then Rest(Rest(Rest(ts))) else Rest(ts))
      case Fail => Fail
      case Ok(rhs, rest) =>
        match ParseOps(rest)
        case Fail => Fail
        case Ok(ops, rest') => Ok(Cons(ChainOp(op, backtick, rhs), ops), rest')
  }

  /** In operand position an operator is negation, and it takes the whole application to its right. */
  function ParseApp(ts: Stream): (r: Result<Expr>)
    ensures r.Ok? ==> Len(r.rest) < Len(ts)
    decreases Len(ts), 4
  {
    if Peek(ts).VarSym? then
      match ParseApp(Rest(ts))
      case Fail => Fail
      case Ok(body, rest) => Ok(ENeg(body), rest)
    else
      match ParseAtom(ts)
      case Fail => Fail
      case Ok(fn, rest) => ParseArgs(fn, rest)
  }

  function ParseArgs(fn: Expr, ts: Stream): (r: Result<Expr>)
    ensures r.Ok? ==> Len(r.rest) <= Len(ts)
    decreases Len(ts), 3
  {
    if !StartsAtom(Peek(ts)) then Ok(fn, ts)
    else
      match ParseAtom(ts)
      case Fail => Fail
      case Ok(arg, rest) => ParseArgs(EApp(fn, arg), rest)
  }

  function ParseAtom(ts: Stream): (r: Result<Expr>)
    ensures r.Ok? ==> Len(r.rest) < Len(ts)
    decreases Len(ts), 2
  {
    match ParseCore(ts)
    case Fail => Fail
    case Ok(e, rest) => ParsePostfix(e, rest)
  }

  /** Projections, and record braces after a constructor. */
  function ParsePostfix(e: Expr, ts: Stream): (r: Result<Expr>)
    ensures r.Ok? ==> Len(r.rest) <= Len(ts)
    decreases Len(ts), 1
  {
    if Peek(ts).Dot? && (Peek2(ts).VarId? || Peek2(ts).ConId?) then
      ParsePostfix(EDot(e, Peek2(ts).s, Peek2(ts).ConId?), Rest(Rest(ts)))
    else if Peek(ts).LBrace? && IsConAtom(e) then
      match ParseRecord(e, Rest(ts))
      case Fail => Fail
      case Ok(record, rest) => ParsePostfix(record, rest)
    else Ok(e, ts)
  }

  function ParseCore(ts: Stream): (r: Result<Expr>)
    ensures r.Ok? ==> Len(r.rest) < Len(ts)
    decreases Len(ts), 0
  {
    match Peek(ts)
    case VarId(x) => Ok(EVar(x), Rest(ts))
    case ConId(x) => Ok(ECon(x), Rest(ts))
    case IntLit(v) => Ok(EInt(v), Rest(ts))
    case StrLit(s) => Ok(EStr(s), Rest(ts))
    case CharLit(s) => Ok(EChar(s), Rest(ts))
    case LParen => ParseParens(Rest(ts))
    case LBracket => ParseBrackets(Rest(ts))
    case _ => Fail
  }

  /** After a `(`: unit, an operator as a value, a grouping or a tuple. */
  function ParseParens(ts: Stream): (r: Result<Expr>)
    ensures r.Ok? ==> Len(r.rest) <= Len(ts)
    decreases Len(ts), 8
  {
    if Peek(ts).RParen? then Ok(EUnit, Rest(ts))
    else if Peek(ts).VarSym? && Peek2(ts).RParen? then Ok(EOpRef(Peek(ts).s), Rest(Rest(ts)))
    else
      match ParseItems(ts)
      case Fail => Fail
      case Ok(items, rest) =>
        if !Peek(rest).RParen? then Fail
        else Ok(if items.tail == Nil then items.head else ETuple(items), Rest(rest))
  }

  /** After a `[`. */
  function ParseBrackets(ts: Stream): (r: Result<Expr>)
    ensures r.Ok? ==> Len(r.rest) <= Len(ts)
    decreases Len(ts), 8
  {
    if Peek(ts).RBracket? then Ok(EList(Nil), Rest(ts))
    else
      match ParseItems(ts)
      case Fail => Fail
      case Ok(items, rest) => if Peek(rest).RBracket? then Ok(EList(items), Rest(rest)) else Fail
  }

  function ParseItems(ts: Stream): (r: Result<List<Expr>>)
    ensures r.Ok? ==> r.value.Cons? && Len(r.rest) < Len(ts)
    decreases Len(ts), 7
  {
    match ParseExpr(ts)
    case Fail => Fail
    case Ok(e, rest) =>
      if Peek(rest).Comma? then
        match ParseItems(Rest(rest))
        case Fail => Fail
        case Ok(more, rest') => Ok(Cons(e, more), rest')
      else Ok(Cons(e, Nil), rest)
  }

  /** After the `{`. */
  function ParseRecord(path: Expr, ts: Stream): (r: Result<Expr>)
    ensures r.Ok? ==> Len(r.rest) <= Len(ts)
    decreases Len(ts), 9
  {
    if Peek(ts).DotDot? then
      match ParseExpr(Rest(ts))
      case Fail => Fail
      case Ok(spread, rest) => ParseBraced(path, Some(spread), if Peek(rest).Comma? then Rest(rest) else rest)
    else ParseBraced(path, None, ts)
  }

  function ParseBraced(path: Expr, spread: Option<Expr>, ts: Stream): (r: Result<Expr>)
    ensures r.Ok? ==> Len(r.rest) <= Len(ts)
    decreases Len(ts), 8
  {
    if Peek(ts).RBrace? then Ok(ERecord(path, spread, Nil), Rest(ts))
    else
      match ParseFields(ts)
      case Fail => Fail
      case Ok(fields, rest) => if Peek(rest).RBrace? then Ok(ERecord(path, spread, fields), Rest(rest)) else Fail
  }

  function ParseFields(ts: Stream): (r: Result<List<Field>>)
    ensures r.Ok? ==> Len(r.rest) < Len(ts)
    decreases Len(ts), 7
  {
    match ParseField(ts)
    case Fail => Fail
    case Ok(x, rest) =>
      if Peek(rest).Comma? then
        match ParseFields(Rest(rest))
        case Fail => Fail
        case Ok(more, rest') => Ok(Cons(x, more), rest')
      else Ok(Cons(x, Nil), rest)
  }

  function ParseField(ts: Stream): (r: Result<Field>)
    ensures r.Ok? ==> Len(r.rest) < Len(ts)
    decreases Len(ts), 6
  {
    if !Peek(ts).VarId? then Fail
    else if Peek2(ts).Equals? then
      match ParseExpr(Rest(Rest(ts)))
      case Fail => Fail
      case Ok(e, rest) => Ok(Field(Peek(ts).s, e), rest)
    else Ok(Field(Peek(ts).s, EVar(Peek(ts).s)), Rest(ts))
  }

  // ---------------------------------------------------------------- what is printed, read back

  /** Is the first token of the printed pattern a name? */
  predicate BeginsWithName(p: P.Pat)
    decreases p
  {
    match p
    case PVar(_) => true
    case PAs(q, _) => P.Prec(q) == P.PP_ATOM && BeginsWithName(q)
    case PCons(h, _) => P.Prec(h) >= P.PP_APP && BeginsWithName(h)
    case _ => false
  }

  /** A name commits parse_bind to a prefix left-hand side, and only arguments and `=` may follow. */
  function RereadLhs(l: Lhs): Option<Lhs>
  {
    if l.LPrefix? || !BeginsWithName(l.pat) then Some(l)
    else if l.pat.PVar? then Some(LPrefix(l.pat.name, Nil))
    else None
  }

  function Reread(e: Expr): Option<Expr>
    decreases e, 1
  {
    match e
    case EErr => None
    case EApp(fn, arg) =>
      var a, b := Reread(fn), Reread(arg);
      if a.Some? && b.Some? then Some(EApp(a.value, b.value)) else None
    case EChain(head, ops) =>
      var a, b := Reread(head), RereadOps(ops);
      if a.Some? && b.Some? then Some(EChain(a.value, b.value)) else None
    case EDot(recv, x, upper) =>
      var a := Reread(recv);
      if a.Some? then Some(EDot(a.value, x, upper)) else None
    case ENeg(body) =>
      var a := Reread(body);
      if a.Some? then Some(ENeg(a.value)) else None
    case EList(items) =>
      var a := RereadAll(items);
      if a.Some? then Some(EList(a.value)) else None
    case ETuple(items) =>
      var a := RereadAll(items);
      if a.Some? then Some(ETuple(a.value)) else None
    case ERecord(path, spread, fields) =>
      var a, b, c := Reread(path), RereadSpread(spread), RereadFields(fields);
      if a.Some? && b.Some? && c.Some? then Some(ERecord(a.value, b.value, c.value)) else None
    case ELambda(params, body) =>
      var a := Reread(body);
      if a.Some? then Some(ELambda(params, a.value)) else None
    case EIf(c, t, n) =>
      var a, b, d := Reread(c), Reread(t), Reread(n);
      if a.Some? && b.Some? && d.Some? then Some(EIf(a.value, b.value, d.value)) else None
    case ELetIn(bind, body) =>
      var l, a, b := RereadLhs(bind.lhs), Reread(bind.body), Reread(body);
      if l.Some? && a.Some? && b.Some? then Some(ELetIn(Bind(l.value, a.value), b.value)) else None
    case EAssign(target, value) =>
      var a, b := Reread(target), Reread(value);
      if a.Some? && b.Some? then Some(EAssign(a.value, b.value)) else None
    case _ => Some(e)
  }

  function RereadSpread(spread: Option<Expr>): Option<Option<Expr>>
    decreases spread, 0
  {
    if spread.None? then Some(None)
    else
      var a := Reread(spread.value);
      if a.Some? then Some(Some(a.value)) else None
  }

  function RereadOps(ops: List<ChainOp>): Option<List<ChainOp>>
    decreases ops, 0
  {
    match ops
    case Nil => Some(Nil)
    case Cons(o, os) =>
      var a, b := Reread(o.rhs), RereadOps(os);
      if a.Some? && b.Some? then Some(Cons(ChainOp(o.op, o.backtick, a.value), b.value)) else None
  }

  function RereadAll(es: List<Expr>): Option<List<Expr>>
    decreases es, 0
  {
    match es
    case Nil => Some(Nil)
    case Cons(e, more) =>
      var a, b := Reread(e), RereadAll(more);
      if a.Some? && b.Some? then Some(Cons(a.value, b.value)) else None
  }

  function RereadFields(fields: List<Field>): Option<List<Field>>
    decreases fields, 0
  {
    match fields
    case Nil => Some(Nil)
    case Cons(x, xs) =>
      var a, b := Reread(x.value), RereadFields(xs);
      if a.Some? && b.Some? then Some(Cons(Field(x.name, a.value), b.value)) else None
  }

  // ---------------------------------------------------------------- first tokens

  /** What the first tokens of a printed expression can be; the higher the level, the fewer. */
  predicate Opens(ts: Stream, prec: nat)
  {
    || StartsAtom(Peek(ts))
    || (prec < EP_APP && Peek(ts).VarSym? && StartsAtom(Peek2(ts)))
    || (prec < EP_CHAIN && (Peek(ts).Lambda? || Peek(ts).Let? || Peek(ts).If?))
  }

  lemma {:induction false} FirstPrint(e: Expr, prec: nat, lead: bool, rest: Stream)
    requires Wf(e) && prec <= EP_ATOM
    ensures Opens(Print(e, prec, lead, rest), prec)
    decreases e, 1
  {
    if !Bracketed(e, prec, lead) {
      FirstInner(e, lead, rest);
    }
    hide Inner, Wf;
  }

  lemma {:induction false} FirstInner(e: Expr, lead: bool, rest: Stream)
    requires Wf(e)
    ensures Opens(Inner(e, lead, rest), Prec(e))
    decreases e, 0
  {
    if e.EApp? {
      FirstPrint(e.fn, EP_APP, lead, Print(e.arg, EP_ATOM, false, rest));
    } else if e.EChain? {
      FirstPrint(e.head, EP_NEG, lead, PrintOps(e.ops, rest));
    } else if e.EDot? {
      FirstPrint(e.recv, EP_ATOM, lead, Cons(Dot, Cons(NameToken(e.upper, e.name), rest)));
    } else if e.ENeg? {
      FirstPrint(e.body, EP_APP, false, rest);
    } else if e.ERecord? {
      FirstPrint(e.path, EP_ATOM, lead, Cons(LBrace, PrintInside(e, rest)));
    } else if e.EAssign? {
      FirstPrint(e.target, EP_CHAIN, lead, Cons(Assign, Print(e.value, EP_EXPR, false, rest)));
    }
    hide Print, PrintItems, PrintOps, PrintInside, Wf;
  }

  // ---------------------------------------------------------------- the parser reads what was printed

  /** Tokens that cannot extend an expression at each level. */
  predicate AtomFollow(t: Token)
  {
    !t.Dot? && !t.LBrace?
  }

  predicate AppFollow(t: Token)
  {
    AtomFollow(t) && !StartsAtom(t)
  }

  predicate ChainFollow(t: Token)
  {
    AppFollow(t) && !t.VarSym? && !t.ColonColon? && !t.Backtick?
  }

  predicate ExprFollow(t: Token)
  {
    ChainFollow(t) && !t.Assign?
  }

  function Lift<T>(r: Option<T>, rest: Stream): Result<T>
  {
    if r.Some? then Ok(r.value, rest) else Fail
  }

  function Postfixed(r: Option<Expr>, rest: Stream): Result<Expr>
  {
    if r.Some? then ParsePostfix(r.value, rest) else Fail
  }

  function Applied(r: Option<Expr>, rest: Stream): Result<Expr>
  {
    if r.Some? then ParseArgs(r.value, rest) else Fail
  }

  lemma NothingAfterAtom(r: Option<Expr>, rest: Stream)
    requires AtomFollow(Peek(rest))
    ensures Postfixed(r, rest) == Lift(r, rest)
  {
  }

  lemma NothingAfterApp(r: Option<Expr>, rest: Stream)
    requires AppFollow(Peek(rest))
    ensures Applied(r, rest) == Lift(r, rest)
  {
  }

  lemma GroupOne(ts: Stream, r: Option<Expr>, rest: Stream)
    requires Opens(ts, EP_EXPR) && ParseExpr(ts) == Lift(r, Cons(RParen, rest))
    ensures ParseCore(Cons(LParen, ts)) == Lift(r, rest)
  {
    hide ParseExpr;
    assert ParseItems(ts) == if r.Some? then Ok(Cons(r.value, Nil), Cons(RParen, rest)) else Fail;
    hide ParseItems;
  }

  lemma GroupBack(e: Expr, prec: nat, lead: bool, rest: Stream)
    requires Wf(e) && Bracketed(e, prec, lead)
    requires var end := Cons(RParen, rest); ParseExpr(Print(e, EP_EXPR, false, end)) == Lift(Reread(e), end)
    ensures ParseAtom(Print(e, prec, lead, rest)) == Postfixed(Reread(e), rest)
  {
    var ts := Print(e, EP_EXPR, false, Cons(RParen, rest));
    FirstPrint(e, EP_EXPR, false, Cons(RParen, rest));
    assert Print(e, prec, lead, rest) == Cons(LParen, ts);
    hide Inner, Print, ParseExpr, Wf, Reread, ParsePostfix, Opens;
    GroupOne(ts, Reread(e), rest);
    hide ParseCore;
  }

  lemma {:induction false} AtomBack(e: Expr, lead: bool, rest: Stream)
    requires Wf(e)
    ensures ParseAtom(Print(e, EP_ATOM, lead, rest)) == Postfixed(Reread(e), rest)
    decreases e, if Prec(e) == EP_ATOM then 10 else 20
  {
    if Bracketed(e, EP_ATOM, lead) {
      ExprBack(e, false, Cons(RParen, rest));
      GroupBack(e, EP_ATOM, lead, rest);
    } else if e.EDot? {
      DotBack(e, lead, rest);
    } else if e.ERecord? {
      RecordBack(e, lead, rest);
    } else {
      CoreBack(e, lead, rest);
      assert Print(e, EP_ATOM, lead, rest) == Inner(e, lead, rest);
      hide Inner, Print, ParseCore, Reread, ParsePostfix, Wf;
    }
  }

  lemma {:induction false} DotBack(e: Expr, lead: bool, rest: Stream)
    requires Wf(e) && e.EDot?
    ensures ParseAtom(Print(e, EP_ATOM, lead, rest)) == Postfixed(Reread(e), rest)
    decreases e, 0
  {
    var more := Cons(Dot, Cons(NameToken(e.upper, e.name), rest));
    AtomBack(e.recv, lead, more);
    assert Print(e, EP_ATOM, lead, rest) == Print(e.recv, EP_ATOM, lead, more);
    hide Print, ParseAtom, Wf;
  }

  lemma {:induction false} RecordBack(e: Expr, lead: bool, rest: Stream)
    requires Wf(e) && e.ERecord?
    ensures ParseAtom(Print(e, EP_ATOM, lead, rest)) == Postfixed(Reread(e), rest)
    decreases e, 1
  {
    var more := Cons(LBrace, PrintInside(e, rest));
    AtomBack(e.path, lead, more);
    ConAtomKept(e.path);
    assert Print(e, EP_ATOM, lead, rest) == Print(e.path, EP_ATOM, lead, more);
    if Reread(e.path).Some? {
      InsideBack(e, Reread(e.path).value, rest);
    }
    hide Print, PrintInside, ParseAtom, ParseRecord, RereadFields, RereadSpread, Wf, IsConAtom;
  }

  lemma ConAtomKept(e: Expr)
    ensures Reread(e).Some? ==> (IsConAtom(Reread(e).value) <==> IsConAtom(e))
  {
  }

  /** A record's contents once its constructor is read. */
  function RereadInside(e: Expr, path: Expr): Option<Expr>
    requires e.ERecord?
  {
    var b, c := RereadSpread(e.spread), RereadFields(e.fields);
    if b.Some? && c.Some? then Some(ERecord(path, b.value, c.value)) else None
  }

  /** The fields, after the spread if there is one. */
  lemma {:induction false} BracedBack(fields: List<Field>, path: Expr, spread: Option<Expr>, rest: Stream)
    requires WfFields(fields)
    ensures ParseBraced(path, spread, PrintFields(fields, Cons(RBrace, rest))) ==
            if RereadFields(fields).Some? then Ok(ERecord(path, spread, RereadFields(fields).value), rest) else Fail
    decreases fields, 31
  {
    var end := Cons(RBrace, rest);
    if fields.Nil? {
      assert PrintFields(fields, end) == end;
    } else {
      FieldsBack(fields, end);
      FieldsFirst(fields, end);
      hide PrintFields, ParseFields, RereadFields;
    }
  }

  lemma SpreadParts(path: Expr, ts: Stream, more: bool, spread: Option<Expr>, fields: Stream)
    requires !Peek(fields).Comma? && ParseExpr(ts) == Lift(spread, if more then Cons(Comma, fields) else fields)
    ensures ParseRecord(path, Cons(DotDot, ts)) == if spread.Some? then ParseBraced(path, spread, fields) else Fail
  {
    hide ParseExpr, ParseBraced;
  }

  lemma FieldsHead(fields: List<Field>, rest: Stream)
    ensures var t := Peek(PrintFields(fields, Cons(RBrace, rest))); if fields.Cons? then t.VarId? else t == RBrace
  {
  }

  lemma NoSpread(path: Expr, fields: List<Field>, rest: Stream)
    ensures var ts := PrintFields(fields, Cons(RBrace, rest)); ParseRecord(path, ts) == ParseBraced(path, None, ts)
  {
    FieldsHead(fields, rest);
    hide ParseBraced, ParseExpr, PrintFields;
  }

  lemma WfInside(e: Expr)
    requires e.ERecord? && Wf(e)
    ensures WfFields(e.fields) && (e.spread.Some? ==> Wf(e.spread.value))
  {
  }

  lemma InsideParts(e: Expr, rest: Stream)
    requires e.ERecord?
    ensures var fields := PrintFields(e.fields, Cons(RBrace, rest));
            PrintInside(e, rest) ==
            if e.spread.None? then fields
            else Cons(DotDot, Print(e.spread.value, EP_EXPR, false, if e.fields.Cons? then Cons(Comma, fields)
              else fields))
    ensures RereadSpread(e.spread) ==
            if e.spread.None? then Some(None) else if Reread(e.spread.value).Some? then Some(Reread(e.spread.value))
              else None
  {
    hide Print, PrintFields, Reread;
  }

  lemma {:induction false} InsideBack(e: Expr, path: Expr, rest: Stream)
    requires Wf(e) && e.ERecord?
    ensures ParseRecord(path, PrintInside(e, rest)) == Lift(RereadInside(e, path), rest)
    decreases e, 0
  {
    hide Print, PrintInside, ParseRecord, ParseExpr, ParseBraced, PrintFields, Reread, RereadFields, RereadSpread, Wf;
    var fields := PrintFields(e.fields, Cons(RBrace, rest));
    WfInside(e);
    FieldsHead(e.fields, rest);
    InsideParts(e, rest);
    if e.spread.Some? {
      var more := if e.fields.Cons? then Cons(Comma, fields) else fields;
      ExprBack(e.spread.value, false, more);
      SpreadParts(path, Print(e.spread.value, EP_EXPR, false, more), e.fields.Cons?, Reread(e.spread.value), fields);
      BracedBack(e.fields, path, Reread(e.spread.value), rest);
    } else {
      NoSpread(path, e.fields, rest);
      BracedBack(e.fields, path, None, rest);
    }
  }

  lemma FieldsFirst(fields: List<Field>, rest: Stream)
    requires fields.Cons?
    ensures Peek(PrintFields(fields, rest)).VarId?
  {
  }

  lemma {:induction false} CoreBack(e: Expr, lead: bool, rest: Stream)
    requires Wf(e) && Prec(e) == EP_ATOM && !e.EDot? && !e.ERecord?
    ensures ParseCore(Inner(e, lead, rest)) == Lift(Reread(e), rest)
    decreases e, 1
  {
    if e.ETuple? {
      TupleBack(e, lead, rest);
    } else if e.EList? {
      ListBack(e, lead, rest);
    }
  }

  lemma {:induction false} TupleBack(e: Expr, lead: bool, rest: Stream)
    requires Wf(e) && e.ETuple?
    ensures ParseCore(Inner(e, lead, rest)) == Lift(Reread(e), rest)
    decreases e, 0
  {
    var end := Cons(RParen, rest);
    ItemsBack(e.items, end);
    ItemsFirst(e.items, end);
    RereadAllLength(e.items);
    assert Inner(e, lead, rest) == Cons(LParen, PrintItems(e.items, end));
    hide ParseItems, PrintItems, Inner, RereadAll, Wf;
  }

  lemma {:induction false} ListBack(e: Expr, lead: bool, rest: Stream)
    requires Wf(e) && e.EList?
    ensures ParseCore(Inner(e, lead, rest)) == Lift(Reread(e), rest)
    decreases e, 0
  {
    var end := Cons(RBracket, rest);
    assert e.items.Nil? ==> PrintItems(e.items, end) == end && RereadAll(e.items) == Some(Nil);
    if e.items.Cons? {
      ItemsBack(e.items, end);
      ItemsFirst(e.items, end);
    }
    assert Inner(e, lead, rest) == Cons(LBracket, PrintItems(e.items, end));
    hide ParseItems, PrintItems, Inner, RereadAll, Wf;
  }

  lemma ItemsFirst(items: List<Expr>, rest: Stream)
    requires items.Cons? && WfAll(items)
    ensures Opens(PrintItems(items, rest), EP_EXPR)
  {
    FirstPrint(items.head, EP_EXPR, false, if items.tail == Nil then rest
      else Cons(Comma, PrintItems(items.tail, rest)));
    hide Print, Wf;
  }

  lemma RereadAllLength(es: List<Expr>)
    ensures RereadAll(es).Some? ==> Len(RereadAll(es).value) == Len(es)
    decreases es
  {
    if es.Cons? {
      RereadAllLength(es.tail);
    }
    hide Reread;
  }

  lemma {:induction false} ItemsBack(items: List<Expr>, rest: Stream)
    requires items.Cons? && WfAll(items) && ExprFollow(Peek(rest)) && !Peek(rest).Comma?
    ensures ParseItems(PrintItems(items, rest)) == Lift(RereadAll(items), rest)
    decreases items, 30
  {
    if items.tail == Nil {
      ExprBack(items.head, false, rest);
      assert RereadAll(items.tail) == Some(Nil);
    } else {
      ExprBack(items.head, false, Cons(Comma, PrintItems(items.tail, rest)));
      ItemsBack(items.tail, rest);
    }
    hide Print, ParseExpr, Reread, Wf;
  }

  lemma {:induction false} FieldsBack(fields: List<Field>, rest: Stream)
    requires fields.Cons? && WfFields(fields)
    requires ExprFollow(Peek(rest)) && !Peek(rest).Comma? && !Peek(rest).Equals?
    ensures ParseFields(PrintFields(fields, rest)) == Lift(RereadFields(fields), rest)
    decreases fields, 30
  {
    if fields.tail == Nil {
      FieldBack(fields.head, rest);
      assert RereadFields(fields.tail) == Some(Nil);
    } else {
      FieldBack(fields.head, Cons(Comma, PrintFields(fields.tail, rest)));
      FieldsBack(fields.tail, rest);
    }
    hide PrintField, ParseField, Reread, Wf;
  }

  lemma {:induction false} FieldBack(x: Field, rest: Stream)
    requires Wf(x.value) && ExprFollow(Peek(rest)) && !Peek(rest).Equals?
    ensures ParseField(PrintField(x, rest)) ==
            if Reread(x.value).Some? then Ok(Field(x.name, Reread(x.value).value), rest) else Fail
    decreases x, 30
  {
    if x.value == EVar(x.name) {
      assert Reread(x.value) == Some(x.value);
    } else {
      ExprBack(x.value, false, rest);
    }
    hide Print, ParseExpr, Reread, Wf;
  }

  lemma AppliedOne(a: Option<Expr>, ts: Stream, b: Option<Expr>, rest: Stream)
    requires StartsAtom(Peek(ts)) && ParseAtom(ts) == Lift(b, rest)
    ensures Applied(a, ts) == if a.Some? && b.Some? then Applied(Some(EApp(a.value, b.value)), rest) else Fail
  {
    hide ParseAtom;
  }

  lemma AppOfAtom(ts: Stream, r: Option<Expr>, rest: Stream)
    requires StartsAtom(Peek(ts)) && ParseAtom(ts) == Lift(r, rest)
    ensures ParseApp(ts) == Applied(r, rest)
  {
    hide ParseAtom;
  }

  lemma {:induction false} AppBack(e: Expr, lead: bool, rest: Stream)
    requires Wf(e) && AtomFollow(Peek(rest))
    ensures ParseApp(Print(e, EP_APP, lead, rest)) == Applied(Reread(e), rest)
    decreases e, if Prec(e) >= EP_APP then 11 else 21
  {
    if e.EApp? {
      SpineBack(e, lead, rest);
    } else {
      var ts := Print(e, EP_ATOM, lead, rest);
      FirstPrint(e, EP_ATOM, lead, rest);
      AtomBack(e, lead, rest);
      NothingAfterAtom(Reread(e), rest);
      assert Print(e, EP_APP, lead, rest) == ts;
      hide Print, ParseAtom, Reread, ParsePostfix, ParseApp, Applied, Wf;
      AppOfAtom(ts, Reread(e), rest);
    }
  }

  lemma {:induction false} SpineBack(e: Expr, lead: bool, rest: Stream)
    requires Wf(e) && e.EApp? && AtomFollow(Peek(rest))
    ensures ParseApp(Print(e, EP_APP, lead, rest)) == Applied(Reread(e), rest)
    decreases e, 0
  {
    var more := Print(e.arg, EP_ATOM, false, rest);
    FirstPrint(e.arg, EP_ATOM, false, rest);
    AppBack(e.fn, lead, more);
    AtomBack(e.arg, false, rest);
    NothingAfterAtom(Reread(e.arg), rest);
    assert Print(e, EP_APP, lead, rest) == Print(e.fn, EP_APP, lead, more);
    hide Print, ParseApp, ParseAtom, Wf;
    AppliedOne(Reread(e.fn), more, Reread(e.arg), rest);
  }

  lemma {:induction false} NegBack(e: Expr, lead: bool, rest: Stream)
    requires Wf(e) && AppFollow(Peek(rest))
    ensures ParseApp(Print(e, EP_NEG, lead, rest)) == Lift(Reread(e), rest)
    decreases e, if Bracketed(e, EP_NEG, lead) then 22 else 12
  {
    if e.ENeg? && !lead {
      AppBack(e.body, false, rest);
      NothingAfterApp(Reread(e.body), rest);
      assert Print(e, EP_NEG, lead, rest) == Cons(VarSym("-"), Print(e.body, EP_APP, false, rest));
      hide Print, ParseAtom, ParseArgs, Wf;
    } else {
      AppBack(e, lead, rest);
      NothingAfterApp(Reread(e), rest);
      assert Print(e, EP_NEG, lead, rest) == Print(e, EP_APP, lead, rest);
      hide Print, ParseApp, Reread, Wf;
    }
  }

  lemma ChainParts(ts: Stream, a: Option<Expr>, more: Stream, b: Option<List<ChainOp>>, rest: Stream)
    requires ParseApp(ts) == Lift(a, more) && ParseOps(more) == Lift(b, rest)
    ensures ParseChain(ts) ==
            if a.Some? && b.Some? then Ok(if b.value == Nil then a.value else EChain(a.value, b.value), rest) else Fail
  {
    hide ParseApp, ParseOps;
  }

  lemma {:induction false} ChainBack(e: Expr, lead: bool, rest: Stream)
    requires Wf(e) && ChainFollow(Peek(rest))
    ensures ParseChain(Print(e, EP_CHAIN, lead, rest)) == Lift(Reread(e), rest)
    decreases e, if Bracketed(e, EP_CHAIN, lead) then 23 else 13
  {
    if e.EChain? {
      var more := PrintOps(e.ops, rest);
      OpsFirst(e.ops, rest);
      NegBack(e.head, lead, more);
      OpsBack(e.ops, rest);
      RereadOpsShape(e.ops);
      assert Print(e, EP_CHAIN, lead, rest) == Print(e.head, EP_NEG, lead, more);
      hide Print, PrintOps, ParseApp, ParseOps, ParseChain, RereadOps, Wf;
      ChainParts(Print(e.head, EP_NEG, lead, more), Reread(e.head), more, RereadOps(e.ops), rest);
    } else {
      NegBack(e, lead, rest);
      assert ParseOps(rest) == Ok(Nil, rest);
      assert Print(e, EP_CHAIN, lead, rest) == Print(e, EP_NEG, lead, rest);
      hide Print, ParseApp, Reread, ParseOps, ParseChain, Wf;
      ChainParts(Print(e, EP_NEG, lead, rest), Reread(e), rest, Some(Nil), rest);
    }
  }

  lemma OpsFirst(ops: List<ChainOp>, rest: Stream)
    requires ops.Cons?
    ensures AppFollow(Peek(PrintOps(ops, rest)))
  {
  }

  lemma RereadOpsShape(ops: List<ChainOp>)
    requires ops.Cons?
    ensures RereadOps(ops).Some? ==> RereadOps(ops).value.Cons?
  {
  }

  lemma {:induction false} OpsBack(ops: List<ChainOp>, rest: Stream)
    requires WfOps(ops) && ChainFollow(Peek(rest))
    ensures ParseOps(PrintOps(ops, rest)) == Lift(RereadOps(ops), rest)
    decreases ops, 30
  {
    if ops.Cons? {
      var more := PrintOps(ops.tail, rest);
      if ops.tail.Cons? {
        OpsFirst(ops.tail, rest);
      }
      OpsBack(ops.tail, rest);
      NegBack(ops.head.rhs, false, more);
      OpBack(ops.head, Print(ops.head.rhs, EP_NEG, false, more), Reread(ops.head.rhs), more);
    }
    hide Print, PrintOp, ParseApp, Reread, Wf, AtInfixOp;
  }

  /** One operator and its operand. */
  lemma OpBack(o: ChainOp, ts: Stream, r: Option<Expr>, rest: Stream)
    requires WfSpelling(o) && ParseApp(ts) == Lift(r, rest)
    ensures ParseOps(PrintOp(o.op, ts)) ==
            if r.None? then Fail
            else match ParseOps(rest)
                 case Fail => Fail
                 case Ok(ops, rest') => Ok(Cons(ChainOp(o.op, o.backtick, r.value), ops), rest')
  {
    hide ParseApp;
  }

  lemma {:induction false} ExprBack(e: Expr, lead: bool, rest: Stream)
    requires Wf(e) && ExprFollow(Peek(rest))
    ensures ParseExpr(Print(e, EP_EXPR, lead, rest)) == Lift(Reread(e), rest)
    decreases e, if Bracketed(e, EP_EXPR, lead) then 24 else 14
  {
    if e.ELambda? {
      LambdaBack(e, rest);
    } else if e.EIf? {
      IfBack(e, rest);
    } else if e.ELetIn? {
      LetInBack(e, rest);
    } else if e.EAssign? {
      AssignBack(e, lead, rest);
    } else {
      FirstPrint(e, EP_CHAIN, lead, rest);
      ChainBack(e, lead, rest);
      assert Print(e, EP_EXPR, lead, rest) == Print(e, EP_CHAIN, lead, rest);
      hide Print, ParseChain, ParseExpr, Reread, Wf;
      ExprOfChain(Print(e, EP_CHAIN, lead, rest), Reread(e), rest);
    }
  }

  lemma ExprOfChain(ts: Stream, r: Option<Expr>, rest: Stream)
    requires Opens(ts, EP_CHAIN) && ParseChain(ts) == Lift(r, rest) && !Peek(rest).Assign?
    ensures ParseExpr(ts) == Lift(r, rest)
  {
    hide ParseChain;
  }

  lemma {:induction false} LambdaBack(e: Expr, rest: Stream)
    requires Wf(e) && e.ELambda? && ExprFollow(Peek(rest))
    ensures ParseExpr(Inner(e, false, rest)) == Lift(Reread(e), rest)
    decreases e, 0
  {
    var more := Cons(Arrow, Print(e.body, EP_EXPR, false, rest));
    P.ArgsBack(e.params, false, more);
    ExprBack(e.body, false, rest);
    hide Print, ParseChain, Wf;
    hide P.PrintArgs, P.ParseArgs;
    assert ParseExpr(Inner(e, false, rest)) == ParseLambda(P.PrintArgs(e.params, false, more));
    hide ParseExpr;
  }

  lemma IfParts(ts: Stream, a: Option<Expr>, second: Stream, b: Option<Expr>, third: Stream, c: Option<Expr>,
                rest: Stream)
    requires ParseExpr(ts) == Lift(a, Cons(Then, second)) && ParseExpr(second) == Lift(b, Cons(Else, third))
    requires ParseExpr(third) == Lift(c, rest)
    ensures ParseExpr(Cons(If, ts)) ==
            if a.Some? && b.Some? && c.Some? then Ok(EIf(a.value, b.value, c.value), rest) else Fail
  {
    assert ParseExpr(Cons(If, ts)) == ParseIf(ts);
    hide ParseExpr;
  }

  lemma {:induction false} IfBack(e: Expr, rest: Stream)
    requires Wf(e) && e.EIf? && ExprFollow(Peek(rest))
    ensures ParseExpr(Inner(e, false, rest)) == Lift(Reread(e), rest)
    decreases e, 0
  {
    var third := Print(e.no, EP_EXPR, false, rest);
    var second := Print(e.yes, EP_EXPR, false, Cons(Else, third));
    var first := Print(e.cond, EP_EXPR, false, Cons(Then, second));
    ExprBack(e.cond, false, Cons(Then, second));
    ExprBack(e.yes, false, Cons(Else, third));
    ExprBack(e.no, false, rest);
    hide Print, ParseExpr, Wf;
    IfParts(first, Reread(e.cond), second, Reread(e.yes), third, Reread(e.no), rest);
  }

  lemma {:induction false} AssignBack(e: Expr, lead: bool, rest: Stream)
    requires Wf(e) && e.EAssign? && ExprFollow(Peek(rest))
    ensures ParseExpr(Inner(e, lead, rest)) == Lift(Reread(e), rest)
    decreases e, 0
  {
    var more := Cons(Assign, Print(e.value, EP_EXPR, false, rest));
    FirstPrint(e.target, EP_CHAIN, lead, more);
    ChainBack(e.target, lead, more);
    ExprBack(e.value, false, rest);
    hide Print, ParseChain, Wf;
  }

  lemma LetInParts(ts: Stream, l: Option<Lhs>, value: Stream, a: Option<Expr>, last: Stream, b: Option<Expr>,
                   rest: Stream)
    requires if l.Some? then ParseLhs(ts) == Ok(l.value, Cons(Equals, value))
             else ParseLhs(ts).Ok? ==> !Peek(ParseLhs(ts).rest).Equals?
    requires ParseExpr(value) == Lift(a, Cons(In, last)) && ParseExpr(last) == Lift(b, rest)
    ensures ParseExpr(Cons(Let, ts)) ==
            if l.Some? && a.Some? && b.Some? then Ok(ELetIn(Bind(l.value, a.value), b.value), rest) else Fail
  {
    hide ParseLhs;
    assert ParseExpr(Cons(Let, ts)) == ParseLetIn(ts);
    hide ParseExpr;
    assert ParseBind(ts) == if l.Some? && a.Some? then Ok(Bind(l.value, a.value), Cons(In, last)) else Fail;
  }

  lemma LetInReread(e: Expr)
    requires e.ELetIn?
    ensures var l, a, b := RereadLhs(e.bind.lhs), Reread(e.bind.body), Reread(e.body);
            Reread(e) ==
            if l.Some? && a.Some? && b.Some? then Some(ELetIn(Bind(l.value, a.value), b.value)) else None
  {
  }

  lemma {:induction false} LetInBack(e: Expr, rest: Stream)
    requires Wf(e) && e.ELetIn? && ExprFollow(Peek(rest))
    ensures ParseExpr(Inner(e, false, rest)) == Lift(Reread(e), rest)
    decreases e, 0
  {
    var last := Print(e.body, EP_EXPR, false, rest);
    var value := Print(e.bind.body, EP_EXPR, false, Cons(In, last));
    var lhs := PrintLhs(e.bind.lhs, Cons(Equals, value));
    LhsBack(e.bind.lhs, value);
    ExprBack(e.bind.body, false, Cons(In, last));
    ExprBack(e.body, false, rest);
    LetInReread(e);
    assert Inner(e, false, rest) == Cons(Let, lhs);
    hide Print, PrintLhs, ParseLhs, RereadLhs, ParseExpr, Reread, Inner, Wf;
    LetInParts(lhs, RereadLhs(e.bind.lhs), value, Reread(e.bind.body), last, Reread(e.body), rest);
  }

  /** The first two tokens of a printed pattern, as parse_bind looks at them. */
  ghost predicate NameShows(p: P.Pat, ts: Stream)
  {
    && (Peek(ts).VarId? <==> BeginsWithName(p))
    && (BeginsWithName(p) && !p.PVar? ==> Peek2(ts).As? || Peek2(ts).ColonColon?)
  }

  lemma {:induction false} NamedFirst(p: P.Pat, prec: nat, rest: Stream)
    requires P.Wf(p) && P.Prec(p) >= prec
    ensures NameShows(p, P.Print(p, prec, false, rest))
    decreases p
  {
    assert P.Print(p, prec, false, rest) == P.Inner(p, false, rest);
    if p.PAs? {
      var more := Cons(As, Cons(VarId(p.name), rest));
      if P.Prec(p.pat) == P.PP_ATOM {
        NamedFirst(p.pat, P.PP_ATOM, more);
        NamedThen(p.pat, P.PP_ATOM, more);
      }
      assert P.Inner(p, false, rest) == P.Print(p.pat, P.PP_ATOM, false, more);
    } else if p.PCons? {
      var more := Cons(ColonColon, P.Print(p.tl, P.PP_PAT, false, rest));
      if P.Prec(p.hd) >= P.PP_APP {
        NamedFirst(p.hd, P.PP_APP, more);
        NamedThen(p.hd, P.PP_APP, more);
      }
      assert P.Inner(p, false, rest) == P.Print(p.hd, P.PP_APP, false, more);
    } else if p.PCon? {
      P.PathFirst(p.path, P.PrintArgs(p.args, false, rest));
    } else if p.PRecord? {
      P.PathFirst(p.path, Cons(LBrace, P.PrintInside(p, rest)));
    }
  }

  lemma NamedThen(p: P.Pat, prec: nat, rest: Stream)
    ensures p.PVar? && P.Prec(p) >= prec ==> P.Print(p, prec, false, rest) == Cons(VarId(p.name), rest)
  {
  }

  lemma LhsBack(l: Lhs, value: Stream)
    requires WfLhs(l)
    ensures var r := ParseLhs(PrintLhs(l, Cons(Equals, value)));
            if RereadLhs(l).Some? then r == Ok(RereadLhs(l).value, Cons(Equals, value))
            else r.Ok? ==> !Peek(r.rest).Equals?
  {
    var rest := Cons(Equals, value);
    if l.LPrefix? {
      P.ArgsBack(l.args, true, rest);
      hide P.PrintArgs, P.ParseArgs;
    } else {
      NamedFirst(l.pat, P.PP_PAT, rest);
      NamedThen(l.pat, P.PP_PAT, rest);
      P.PatBack(l.pat, false, rest);
      hide P.Print, P.ParsePat, BeginsWithName;
    }
  }

  // ---------------------------------------------------------------- which expressions come back

  /** No binding in the expression has a pattern whose first printed token is a name. */
  predicate Readable(e: Expr)
    decreases e
  {
    match e
    case EApp(fn, arg) => Readable(fn) && Readable(arg)
    case EChain(head, ops) => Readable(head) && ReadableOps(ops)
    case EDot(recv, _, _) => Readable(recv)
    case ENeg(body) => Readable(body)
    case EList(items) => ReadableAll(items)
    case ETuple(items) => ReadableAll(items)
    case ERecord(path, spread, fields) =>
      Readable(path) && (spread.Some? ==> Readable(spread.value)) && ReadableFields(fields)
    case ELambda(_, body) => Readable(body)
    case EIf(c, t, n) => Readable(c) && Readable(t) && Readable(n)
    case ELetIn(bind, body) =>
      (bind.lhs.LPat? ==> !BeginsWithName(bind.lhs.pat)) && Readable(bind.body) && Readable(body)
    case EAssign(target, value) => Readable(target) && Readable(value)
    case _ => true
  }

  predicate ReadableOps(ops: List<ChainOp>)
    decreases ops
  {
    ops.Nil? || (Readable(ops.head.rhs) && ReadableOps(ops.tail))
  }

  predicate ReadableAll(es: List<Expr>)
    decreases es
  {
    es.Nil? || (Readable(es.head) && ReadableAll(es.tail))
  }

  predicate ReadableFields(fields: List<Field>)
    decreases fields
  {
    fields.Nil? || (Readable(fields.head.value) && ReadableFields(fields.tail))
  }

  lemma {:induction false} ReadableExactly(e: Expr)
    requires Wf(e)
    ensures Reread(e) == Some(e) <==> Readable(e)
    decreases e
  {
    if e.EApp? {
      ReadableExactly(e.fn);
      ReadableExactly(e.arg);
    } else if e.EChain? {
      ReadableExactly(e.head);
      ReadableOpsExactly(e.ops);
    } else if e.EDot? {
      ReadableExactly(e.recv);
    } else if e.ENeg? {
      ReadableExactly(e.body);
    } else if e.EList? || e.ETuple? {
      ReadableAllExactly(e.items);
    } else if e.ERecord? {
      ReadableExactly(e.path);
      if e.spread.Some? {
        ReadableExactly(e.spread.value);
      }
      ReadableFieldsExactly(e.fields);
    } else if e.ELambda? {
      ReadableExactly(e.body);
    } else if e.EIf? {
      ReadableExactly(e.cond);
      ReadableExactly(e.yes);
      ReadableExactly(e.no);
    } else if e.ELetIn? {
      ReadableExactly(e.bind.body);
      ReadableExactly(e.body);
      hide BeginsWithName;
    } else if e.EAssign? {
      ReadableExactly(e.target);
      ReadableExactly(e.value);
    }
    hide RereadOps, RereadAll, RereadFields, ReadableOps, ReadableAll, ReadableFields;
  }

  lemma {:induction false} ReadableOpsExactly(ops: List<ChainOp>)
    requires WfOps(ops)
    ensures RereadOps(ops) == Some(ops) <==> ReadableOps(ops)
    decreases ops
  {
    if ops.Cons? {
      ReadableExactly(ops.head.rhs);
      ReadableOpsExactly(ops.tail);
    }
    hide Reread, Readable;
  }

  lemma {:induction false} ReadableAllExactly(es: List<Expr>)
    requires WfAll(es)
    ensures RereadAll(es) == Some(es) <==> ReadableAll(es)
    decreases es
  {
    if es.Cons? {
      ReadableExactly(es.head);
      ReadableAllExactly(es.tail);
    }
    hide Reread, Readable;
  }

  lemma {:induction false} ReadableFieldsExactly(fields: List<Field>)
    requires WfFields(fields)
    ensures RereadFields(fields) == Some(fields) <==> ReadableFields(fields)
    decreases fields
  {
    if fields.Cons? {
      ReadableExactly(fields.head.value);
      ReadableFieldsExactly(fields.tail);
    }
    hide Reread, Readable;
  }

  // ---------------------------------------------------------------- the theorems

  lemma LiftExactly<T>(r: Option<T>, e: T, rest: Stream)
    ensures Lift(r, rest) == Ok(e, rest) <==> r == Some(e)
  {
  }

  /**
    Printing then parsing an expression is the identity, before any token that cannot extend it,
    for exactly the expressions without a binding whose pattern begins with a name.
   */
  lemma ExprRoundTrip(e: Expr, lead: bool, rest: Stream)
    requires Wf(e) && ExprFollow(Peek(rest))
    ensures ParseExpr(Print(e, EP_EXPR, lead, rest)) == Ok(e, rest) <==> Readable(e)
  {
    ExprBack(e, lead, rest);
    hide *;
    ReadableExactly(e);
    LiftExactly(Reread(e), e, rest);
  }

  /** The same for the target of an assignment. */
  lemma ChainRoundTrip(e: Expr, lead: bool, rest: Stream)
    requires Wf(e) && ChainFollow(Peek(rest))
    ensures ParseChain(Print(e, EP_CHAIN, lead, rest)) == Ok(e, rest) <==> Readable(e)
  {
    ChainBack(e, lead, rest);
    hide *;
    ReadableExactly(e);
    LiftExactly(Reread(e), e, rest);
  }

  /** The same for an operand of a chain, where negation may stand at the head of a spine. */
  lemma OperandRoundTrip(e: Expr, lead: bool, rest: Stream)
    requires Wf(e) && AppFollow(Peek(rest))
    ensures ParseApp(Print(e, EP_NEG, lead, rest)) == Ok(e, rest) <==> Readable(e)
  {
    NegBack(e, lead, rest);
    hide *;
    ReadableExactly(e);
    LiftExactly(Reread(e), e, rest);
  }

  /** The same for an argument. */
  lemma AtomRoundTrip(e: Expr, lead: bool, rest: Stream)
    requires Wf(e) && AtomFollow(Peek(rest))
    ensures ParseAtom(Print(e, EP_ATOM, lead, rest)) == Ok(e, rest) <==> Readable(e)
  {
    AtomBack(e, lead, rest);
    NothingAfterAtom(Reread(e), rest);
    hide *;
    ReadableExactly(e);
    LiftExactly(Reread(e), e, rest);
  }

  /** Where it fails for good: `let (x :: y) = a in b` is printed without its bracket. */
  lemma ConsBindingLost(x: string, y: string, a: string, b: string, rest: Stream)
    requires ExprFollow(Peek(rest))
    ensures var p := P.PCons(P.PVar(x), P.PVar(y));
            ParseExpr(Print(ELetIn(Bind(LPat(p), EVar(a)), EVar(b)), EP_EXPR, false, rest)) == Fail
  {
    var p := P.PCons(P.PVar(x), P.PVar(y));
    var e := ELetIn(Bind(LPat(p), EVar(a)), EVar(b));
    assert P.Wf(P.PVar(x)) && P.Wf(P.PVar(y));
    assert BeginsWithName(P.PVar(x)) && P.Prec(P.PVar(x)) == P.PP_ATOM;
    assert BeginsWithName(p);
    ExprBack(e, false, rest);
    LetInReread(e);
    hide Print, ParseExpr;
  }

  /** Where it changes form: `let (x) = a in b` comes back as the definition of x. */
  lemma NameBindingChanges(x: string, a: string, b: string, rest: Stream)
    requires ExprFollow(Peek(rest))
    ensures ParseExpr(Print(ELetIn(Bind(LPat(P.PVar(x)), EVar(a)), EVar(b)), EP_EXPR, false, rest)) ==
            Ok(ELetIn(Bind(LPrefix(x, Nil), EVar(a)), EVar(b)), rest)
  {
    var e := ELetIn(Bind(LPat(P.PVar(x)), EVar(a)), EVar(b));
    ExprBack(e, false, rest);
    LetInReread(e);
    hide Print, ParseExpr;
  }
}
