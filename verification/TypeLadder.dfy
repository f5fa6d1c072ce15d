/**
  Types between the printer and the parser: the ladder of grammar/c/wok_print.c:392-550 and
  1443-1580, the productions of grammar/c/wok_parse.c:650-829. `Reread` says, without any
  token, what the parser makes of a printed type; the two theorems say that it does, and
  for exactly which types that is the identity.
*/
module TypeLadder {
  import opened Tokens

  datatype Mode = Own | Lend | Copy

  datatype Ty =
    | TErr
    | TVar(name: string)
    | TCon(path: List<string>)
    | TApp(fn: Ty, arg: Ty)
    | TFun(from: Ty, to: Ty)
    | TQual(ctx: Ty, body: Ty)
    | TWith(body: Ty, row: List<Row>)
    | TList(elem: Ty)
    | TTuple(items: List<Ty>)
    | TUnit
    | TRowArg(name: string)
    | TTransfer(mode: Mode, body: Ty)

  datatype Row = Role(role: string, ty: Ty) | EffVar(name: string) | Slot(ty: Ty)

  function Word(m: Mode): string
  {
    match m
    case Own => "own"
    case Lend => "lend"
    case Copy => "copy"
  }

  function ModeOf(s: string): Option<Mode>
  {
    if s == "own" then Some(Own) else if s == "lend" then Some(Lend) else if s == "copy" then Some(Copy) else None
  }

  // ---------------------------------------------------------------- the printer

  const TP_TYPE := 0
  const TP_ARROW := 1
  const TP_APP := 2
  const TP_ATOM := 3

  function Prec(t: Ty): nat
  {
    match t
    case TApp(_, _) => TP_APP
    case TTransfer(_, _) => TP_APP
    case TFun(_, _) => TP_ARROW
    case TQual(_, _) => TP_TYPE
    case TWith(_, _) => TP_TYPE
    case _ => TP_ATOM
  }

  /** `t` at a position that demands level `prec`, before `rest`. */
  function Print(t: Ty, prec: nat, rest: Stream): Stream
    decreases t, 1
  {
    if Prec(t) < prec then Cons(LParen, Inner(t, Cons(RParen, rest))) else Inner(t, rest)
  }

  function Inner(t: Ty, rest: Stream): Stream
    decreases t, 0
  {
    match t
    case TErr => rest
    case TVar(x) => Cons(VarId(x), rest)
    case TCon(path) => PrintPath(path, rest)
    case TApp(fn, arg) => Print(fn, TP_APP, Print(arg, TP_ATOM, rest))
    case TFun(from, to) => Print(from, TP_APP, Cons(Arrow, Print(to, TP_ARROW, rest)))
    case TQual(ctx, body) => Print(ctx, TP_ARROW, Cons(FatArrow, Print(body, TP_TYPE, rest)))
    case TWith(body, row) => Print(body, TP_ARROW, Cons(With, PrintRow(row, rest)))
    case TList(elem) => Cons(LBracket, Print(elem, TP_TYPE, Cons(RBracket, rest)))
    case TTuple(items) => Cons(LParen, PrintItems(items, Cons(RParen, rest)))
    case TUnit => Cons(LParen, Cons(RParen, rest))
    case TRowArg(x) => Cons(LParen, Cons(VarId("row"), Cons(VarId(x), Cons(RParen, rest))))
    case TTransfer(m, body) => Cons(VarId(Word(m)), Print(body, TP_APP, rest))
  }

  function PrintItems(items: List<Ty>, rest: Stream): Stream
    decreases items, 2
  {
    match items
    case Nil => rest
    case Cons(t, ts) => Print(t, TP_TYPE, if ts == Nil then rest else Cons(Comma, PrintItems(ts, rest)))
  }

  function PrintRow(row: List<Row>, rest: Stream): Stream
    decreases row, 2
  {
    match row
    case Nil => rest
    case Cons(e, es) => PrintEntry(e, if es == Nil then rest else Cons(VarSym("+"), PrintRow(es, rest)))
  }

  function PrintEntry(e: Row, rest: Stream): Stream
    decreases e, 2
  {
    match e
    case Role(x, t) => Cons(LParen, Cons(VarId(x), Cons(Colon, Print(t, TP_APP, Cons(RParen, rest)))))
    case EffVar(x) => Cons(VarId("eff"), Cons(VarId(x), rest))
    case Slot(t) => Print(t, TP_APP, rest)
  }

  // ---------------------------------------------------------------- the parser

  predicate StartsAtom(t: Token)
  {
    t.VarId? || t.ConId? || t.LParen? || t.LBracket?
  }

  function ParseType(f: bool, ts: Stream): (r: Result<Ty>)
    ensures r.Ok? ==> Len(r.rest) < Len(ts)
    decreases Len(ts), 4
  {
    match ParseArrow(f, ts)
    case Fail => Fail
    case Ok(lhs, rest) =>
      if Peek(rest).FatArrow? then
        match ParseType(f, Rest(rest))
        case Fail => Fail
        case Ok(body, rest') => Ok(TQual(lhs, body), rest')
      else if Peek(rest).With? then
        match ParseRow(f, Rest(rest))
        case Fail => Fail
        case Ok(row, rest') => Ok(TWith(lhs, row), rest')
      else Ok(lhs, rest)
  }

  function ParseArrow(f: bool, ts: Stream): (r: Result<Ty>)
    ensures r.Ok? ==> Len(r.rest) < Len(ts)
    decreases Len(ts), 3
  {
    match ParseTypeApp(f, ts)
    case Fail => Fail
    case Ok(l, rest) =>
      if Peek(rest).Arrow? then
        match ParseArrow(f, Rest(rest))
        case Fail => Fail
        case Ok(to, rest') => Ok(TFun(l, to), rest')
      else Ok(l, rest)
  }

  /** The transfer word of a foreign signature, if one stands here. */
  function Transfer(f: bool, t: Token): Option<Mode>
  {
    if f && t.VarId? then ModeOf(t.s) else None
  }

  function Wrap(mode: Option<Mode>, r: Result<Ty>): Result<Ty>
  {
    if mode.Some? && r.Ok? then Ok(TTransfer(mode.value, r.value), r.rest) else r
  }

  function ParseTypeApp(f: bool, ts: Stream): (r: Result<Ty>)
    ensures r.Ok? ==> Len(r.rest) < Len(ts)
    decreases Len(ts), 2
  {
    var mode := Transfer(f, Peek(ts));
    Wrap(mode, ParseSpine(f, if mode.Some? then Rest(ts) else ts))
  }

  function ParseSpine(f: bool, ts: Stream): (r: Result<Ty>)
    ensures r.Ok? ==> Len(r.rest) < Len(ts)
    decreases Len(ts), 1
  {
    match ParseAtom(f, ts)
    case Fail => Fail
    case Ok(t, rest) => ParseArgs(f, t, rest)
  }

  function ParseArgs(f: bool, fn: Ty, ts: Stream): (r: Result<Ty>)
    ensures r.Ok? ==> Len(r.rest) <= Len(ts)
    decreases Len(ts), 1
  {
    if !StartsAtom(Peek(ts)) then Ok(fn, ts)
    else
      match ParseAtom(f, ts)
      case Fail => Fail
      case Ok(arg, rest) => ParseArgs(f, TApp(fn, arg), rest)
  }

  function ParseAtom(f: bool, ts: Stream): (r: Result<Ty>)
    ensures r.Ok? ==> Len(r.rest) < Len(ts)
    decreases Len(ts), 0
  {
    match Peek(ts)
    case VarId(x) => Ok(TVar(x), Rest(ts))
    case ConId(_) =>
      (match ParsePath(ts)
       case Fail => Fail
       case Ok(path, rest) => Ok(TCon(path), rest))
    case LBracket =>
      (match ParseType(f, Rest(ts))
       case Fail => Fail
       case Ok(elem, rest) => if Peek(rest).RBracket? then Ok(TList(elem), Rest(rest)) else Fail)
    case LParen => ParseGroup(f, Rest(ts))
    case _ => Fail
  }

  /** After a `(`: unit, a row argument, a grouping or a tuple. */
  function ParseGroup(f: bool, ts: Stream): (r: Result<Ty>)
    ensures r.Ok? ==> Len(r.rest) <= Len(ts)
    decreases Len(ts), 6
  {
    if Peek(ts).RParen? then Ok(TUnit, Rest(ts))
    else if Peek(ts) == VarId("row") && Peek2(ts).VarId? && Peek3(ts).RParen? then
      Ok(TRowArg(Peek2(ts).s), Rest(Rest(Rest(ts))))
    else
      match ParseItems(f, ts)
      case Fail => Fail
      case Ok(items, rest) =>
        if !Peek(rest).RParen? then Fail
        else Ok(if items.tail == Nil then items.head else TTuple(items), Rest(rest))
  }

  function ParseItems(f: bool, ts: Stream): (r: Result<List<Ty>>)
    ensures r.Ok? ==> r.value.Cons? && Len(r.rest) < Len(ts)
    decreases Len(ts), 5
  {
    match ParseType(f, ts)
    case Fail => Fail
    case Ok(t, rest) =>
      if Peek(rest).Comma? then
        match ParseItems(f, Rest(rest))
        case Fail => Fail
        case Ok(more, rest') => Ok(Cons(t, more), rest')
      else Ok(Cons(t, Nil), rest)
  }

  function ParseRow(f: bool, ts: Stream): (r: Result<List<Row>>)
    ensures r.Ok? ==> r.value.Cons? && Len(r.rest) < Len(ts)
    decreases Len(ts), 4
  {
    match ParseEntry(f, ts)
    case Fail => Fail
    case Ok(e, rest) =>
      if Peek(rest) == VarSym("+") then
        match ParseRow(f, Rest(rest))
        case Fail => Fail
        case Ok(more, rest') => Ok(Cons(e, more), rest')
      else Ok(Cons(e, Nil), rest)
  }

  function ParseEntry(f: bool, ts: Stream): (r: Result<Row>)
    ensures r.Ok? ==> Len(r.rest) < Len(ts)
    decreases Len(ts), 3
  {
    if Peek(ts).LParen? && Peek2(ts).VarId? && Peek3(ts).Colon? then
      match ParseTypeApp(f, Rest(Rest(Rest(ts))))
      case Fail => Fail
      case Ok(t, rest) => if Peek(rest).RParen? then Ok(Role(Peek2(ts).s, t), Rest(rest)) else Fail
    else if Peek(ts) == VarId("eff") && Peek2(ts).VarId? then Ok(EffVar(Peek2(ts).s), Rest(Rest(ts)))
    else
      match ParseTypeApp(f, ts)
      case Fail => Fail
      case Ok(t, rest) => Ok(Slot(t), rest)
  }

  // ---------------------------------------------------------------- what is printed, read back

  /**
    The trees the parser can build, as far as their own nodes go: tuples of two or more, rows and
    paths of one or more. A variable may have any spelling.
   */
  predicate Wf(t: Ty)
    decreases t
  {
    match t
    case TErr => false
    case TCon(path) => path.Cons?
    case TApp(fn, arg) => Wf(fn) && Wf(arg)
    case TFun(from, to) => Wf(from) && Wf(to)
    case TQual(ctx, body) => Wf(ctx) && Wf(body)
    case TWith(body, row) => Wf(body) && row.Cons? && WfRow(row)
    case TList(elem) => Wf(elem)
    case TTuple(items) => items.Cons? && items.tail.Cons? && WfItems(items)
    case TTransfer(_, body) => Wf(body)
    case _ => true
  }

  predicate WfItems(items: List<Ty>)
    decreases items
  {
    items.Nil? || (Wf(items.head) && WfItems(items.tail))
  }

  predicate WfRow(row: List<Row>)
    decreases row
  {
    row.Nil? || ((row.head.EffVar? || Wf(row.head.ty)) && WfRow(row.tail))
  }

  /** How far parse_typeapp has come: nothing, a transfer word alone, or a spine under an optional word. */
  datatype Spine = Empty | Lone(word: Mode) | Built(mode: Option<Mode>, ty: Ty) | Stuck

  function Feed(s: Spine, u: Option<Ty>): Spine
  {
    if u.None? then Stuck
    else
      match s
      case Empty => Built(None, u.value)
      case Lone(m) => Built(Some(m), u.value)
      case Built(mode, t) => Built(mode, TApp(t, u.value))
      case Stuck => Stuck
  }

  function FeedName(f: bool, s: Spine, x: string): Spine
  {
    if s.Empty? && Transfer(f, VarId(x)).Some? then Lone(Transfer(f, VarId(x)).value) else Feed(s, Some(TVar(x)))
  }

  function Finish(s: Spine): Option<Ty>
  {
    match s
    case Built(None, t) => Some(t)
    case Built(Some(m), t) => Some(TTransfer(m, t))
    case _ => None
  }

  /** The spine state after reading a printed `t`, from state `s`. */
  function Absorb(f: bool, s: Spine, t: Ty): Spine
    decreases t, 1
  {
    match t
    case TApp(fn, arg) => Feed(Absorb(f, s, fn), RereadArg(f, arg))
    case TTransfer(m, body) => Absorb(f, FeedName(f, s, Word(m)), body)
    case TVar(x) => FeedName(f, s, x)
    case _ => Feed(s, RereadOther(f, t))
  }

  function Reread(f: bool, t: Ty): Option<Ty>
    decreases t, 2
  {
    Finish(Absorb(f, Empty, t))
  }

  /** A variable `row` applied to a variable, and nothing more: in brackets, a row argument to the parser. */
  predicate RowApplied(t: Ty)
  {
    t.TApp? && t.fn == TVar("row") && t.arg.TVar?
  }

  /** A variable `eff` applied to a variable: as a row entry, a row variable to the parser. */
  predicate EffApplied(t: Ty)
  {
    t.TApp? && t.fn == TVar("eff") && t.arg.TVar?
  }

  /** The same, applied further or not: the entry begins with a row variable. */
  predicate EffHead(t: Ty)
  {
    EffApplied(t) || (t.TApp? && EffHead(t.fn))
  }

  /** An argument never stands first, so a variable there is a variable whatever its spelling. */
  function RereadArg(f: bool, t: Ty): Option<Ty>
    decreases t, 3
  {
    if t.TVar? then Some(t) else if RowApplied(t) then Some(TRowArg(t.arg.name)) else Reread(f, t)
  }

  function RereadOther(f: bool, t: Ty): Option<Ty>
    decreases t, 0
  {
    match t
    case TCon(_) => Some(t)
    case TUnit => Some(t)
    case TRowArg(_) => Some(t)
    case TFun(from, to) =>
      var a, b := Reread(f, from), Reread(f, to);
      if a.Some? && b.Some? then Some(TFun(a.value, b.value)) else None
    case TQual(ctx, body) =>
      var a, b := Reread(f, ctx), Reread(f, body);
      if a.Some? && b.Some? then Some(TQual(a.value, b.value)) else None
    case TWith(body, row) =>
      var a, b := Reread(f, body), RereadRow(f, row);
      if a.Some? && b.Some? then Some(TWith(a.value, b.value)) else None
    case TList(elem) =>
      var a := Reread(f, elem);
      if a.Some? then Some(TList(a.value)) else None
    case TTuple(items) =>
      var a := RereadItems(f, items);
      if a.Some? then Some(TTuple(a.value)) else None
    case _ => None
  }

  function RereadItems(f: bool, items: List<Ty>): Option<List<Ty>>
    decreases items, 4
  {
    match items
    case Nil => Some(Nil)
    case Cons(t, ts) =>
      var a, b := Reread(f, t), RereadItems(f, ts);
      if a.Some? && b.Some? then Some(Cons(a.value, b.value)) else None
  }

  function RereadRow(f: bool, row: List<Row>): Option<List<Row>>
    decreases row, 4
  {
    match row
    case Nil => Some(Nil)
    case Cons(e, es) =>
      var a, b := RereadEntry(f, e), RereadRow(f, es);
      if a.Some? && b.Some? then Some(Cons(a.value, b.value)) else None
  }

  function RereadEntry(f: bool, e: Row): Option<Row>
    decreases e, 4
  {
    match e
    case EffVar(_) => Some(e)
    case Role(x, t) =>
      var a := Reread(f, t);
      if a.Some? then Some(Role(x, a.value)) else None
    case Slot(t) =>
      if EffApplied(t) then Some(EffVar(t.arg.name))
      else if EffHead(t) then None
      else
        var a := Reread(f, t);
        if a.Some? then Some(Slot(a.value)) else None
  }

  // ---------------------------------------------------------------- first tokens

  /** No printed type can be taken for a role. */
  predicate Clean(ts: Stream)
  {
    StartsAtom(Peek(ts)) && !(Peek(ts).LParen? && Peek2(ts).VarId? && Peek3(ts).Colon?)
  }

  predicate RowWords(ts: Stream)
  {
    Peek(ts) == VarId("row") && Peek2(ts).VarId? && Peek3(ts).RParen?
  }

  predicate EffWords(ts: Stream)
  {
    Peek(ts) == VarId("eff") && Peek2(ts).VarId?
  }

  predicate NoRole(ts: Stream)
  {
    !(Peek(ts).VarId? && Peek2(ts).Colon?)
  }

  lemma {:induction false} CleanPrint(t: Ty, prec: nat, rest: Stream)
    requires Wf(t)
    ensures Clean(Print(t, prec, rest))
    ensures !Peek(rest).Colon? ==> NoRole(Print(t, prec, rest))
    decreases t, 1
  {
    CleanInner(t, rest);
    CleanInner(t, Cons(RParen, rest));
    hide Inner, Wf;
  }

  lemma {:induction false} CleanInner(t: Ty, rest: Stream)
    requires Wf(t)
    ensures Clean(Inner(t, rest))
    ensures !Peek(rest).Colon? ==> NoRole(Inner(t, rest))
    decreases t, 0
  {
    match t
    case TApp(fn, arg) =>
      CleanPrint(fn, TP_APP, Print(arg, TP_ATOM, rest));
      CleanPrint(arg, TP_ATOM, rest);
    case TFun(from, to) => CleanPrint(from, TP_APP, Cons(Arrow, Print(to, TP_ARROW, rest)));
    case TQual(ctx, body) => CleanPrint(ctx, TP_ARROW, Cons(FatArrow, Print(body, TP_TYPE, rest)));
    case TWith(body, row) => CleanPrint(body, TP_ARROW, Cons(With, PrintRow(row, rest)));
    case TTuple(items) =>
      CleanPrint(items.head, TP_TYPE, Cons(Comma, PrintItems(items.tail, Cons(RParen, rest))));
    case TTransfer(m, body) => CleanPrint(body, TP_APP, rest);
    case _ =>
  }

  lemma AtomFirst(t: Ty, rest: Stream)
    requires Wf(t)
    ensures Peek(Print(t, TP_ATOM, rest)).VarId? <==> t.TVar?
    ensures t.TVar? ==> Print(t, TP_ATOM, rest) == Cons(VarId(t.name), rest)
  {
    if t.TCon? {
      PathFirst(t.path, rest);
    }
  }

  /** Only `row` applied to a variable is printed with the words of a row argument. */
  lemma {:induction false} RowWordsOnly(t: Ty, prec: nat, rest: Stream)
    requires Wf(t)
    ensures RowWords(Print(t, prec, rest)) ==>
              (RowApplied(t) && Peek(rest).RParen?) || (t == TVar("row") && Peek(rest).VarId? && Peek2(rest).RParen?)
    decreases t, 1
  {
    RowWordsInner(t, rest);
    hide Inner, Wf, RowApplied;
  }

  lemma {:induction false} RowWordsInner(t: Ty, rest: Stream)
    requires Wf(t)
    ensures RowWords(Inner(t, rest)) ==>
              (RowApplied(t) && Peek(rest).RParen?) || (t == TVar("row") && Peek(rest).VarId? && Peek2(rest).RParen?)
    decreases t, 0
  {
    if t.TApp? {
      CleanPrint(t.arg, TP_ATOM, rest);
      AtomFirst(t.arg, rest);
      RowWordsOnly(t.fn, TP_APP, Print(t.arg, TP_ATOM, rest));
      hide Print, Wf;
    } else if t.TFun? {
      RowWordsOnly(t.from, TP_APP, Cons(Arrow, Print(t.to, TP_ARROW, rest)));
    } else if t.TQual? {
      RowWordsOnly(t.ctx, TP_ARROW, Cons(FatArrow, Print(t.body, TP_TYPE, rest)));
    } else if t.TWith? {
      RowWordsOnly(t.body, TP_ARROW, Cons(With, PrintRow(t.row, rest)));
    } else if t.TCon? {
      PathFirst(t.path, rest);
    }
  }

  /** And only a spine headed by `eff` and a variable is printed with the words of a row variable. */
  lemma {:induction false} EffWordsOnly(t: Ty, rest: Stream)
    requires Wf(t)
    ensures EffWords(Print(t, TP_APP, rest)) <==> EffHead(t) || (t == TVar("eff") && Peek(rest).VarId?)
    decreases t
  {
    if t.TApp? {
      AtomFirst(t.arg, rest);
      EffWordsOnly(t.fn, Print(t.arg, TP_ATOM, rest));
      assert Print(t, TP_APP, rest) == Print(t.fn, TP_APP, Print(t.arg, TP_ATOM, rest));
    } else if t.TCon? {
      PathFirst(t.path, rest);
    }
  }

  /** What is left behind those two words: nothing more of the type, or the next argument. */
  lemma {:induction false} EffTail(t: Ty, rest: Stream)
    requires Wf(t) && EffHead(t)
    ensures var ts := Print(t, TP_APP, rest);
            if EffApplied(t) then Peek2(ts) == VarId(t.arg.name) && Rest(Rest(ts)) == rest
            else StartsAtom(Peek(Rest(Rest(ts))))
    decreases t
  {
    var more := Print(t.arg, TP_ATOM, rest);
    assert Print(t, TP_APP, rest) == Print(t.fn, TP_APP, more);
    if EffApplied(t) {
      AtomFirst(t.arg, rest);
      assert Print(t.fn, TP_APP, more) == Cons(VarId("eff"), more);
    } else {
      CleanPrint(t.arg, TP_ATOM, rest);
      EffTail(t.fn, more);
    }
  }

  // ---------------------------------------------------------------- the parser reads what was printed

  /** Tokens that cannot extend a type at each level. */
  predicate AppFollow(t: Token)
  {
    !t.Dot? && !StartsAtom(t)
  }

  predicate ArrowFollow(t: Token)
  {
    AppFollow(t) && !t.Arrow?
  }

  predicate TypeFollow(t: Token)
  {
    ArrowFollow(t) && !t.FatArrow? && !t.With? && t != VarSym("+")
  }

  function Lift<T>(r: Option<T>, rest: Stream): Result<T>
  {
    if r.Some? then Ok(r.value, rest) else Fail
  }

  /** Read as `u` up to `rest`; or not read, or only up to an argument that a row entry left behind. */
  ghost predicate Back<T>(r: Result<T>, u: Option<T>, rest: Stream)
  {
    if u.Some? then r == Ok(u.value, rest) else r.Fail? || StartsAtom(Peek(r.rest))
  }

  /** parse_typeapp, going on from state `s`. */
  function Resume(f: bool, s: Spine, ts: Stream): Result<Ty>
  {
    match s
    case Empty => ParseTypeApp(f, ts)
    case Lone(m) => Wrap(Some(m), ParseSpine(f, ts))
    case Built(mode, t) => Wrap(mode, ParseArgs(f, t, ts))
    case Stuck => Fail
  }

  lemma ResumeEnd(f: bool, s: Spine, rest: Stream)
    requires s != Empty && AppFollow(Peek(rest))
    ensures Resume(f, s, rest) == Lift(Finish(s), rest)
  {
    assert ParseAtom(f, rest) == Fail;
    hide ParseAtom;
  }

  /** One atom that is not a transfer word, read in any state. */
  lemma ResumeAtom(f: bool, s: Spine, ts: Stream, u: Option<Ty>, rest: Stream)
    requires StartsAtom(Peek(ts)) && ParseAtom(f, ts) == Lift(u, rest)
    requires s == Empty ==> Transfer(f, Peek(ts)).None?
    ensures Resume(f, s, ts) == Resume(f, Feed(s, u), rest)
  {
    hide ParseAtom, Transfer, StartsAtom;
    assert ParseSpine(f, ts) == if u.Some? then ParseArgs(f, u.value, rest) else Fail;
    if s.Built? {
      assert ParseArgs(f, s.ty, ts) == if u.Some? then ParseArgs(f, TApp(s.ty, u.value), rest) else Fail;
    }
  }

  lemma ResumeName(f: bool, s: Spine, x: string, rest: Stream)
    ensures Resume(f, s, Cons(VarId(x), rest)) == Resume(f, FeedName(f, s, x), rest)
  {
    var ts: Stream := Cons(VarId(x), rest);
    assert ParseAtom(f, ts) == Ok(TVar(x), rest);
    hide ParseAtom;
    if !(s.Empty? && Transfer(f, VarId(x)).Some?) {
      ResumeAtom(f, s, ts, Some(TVar(x)), rest);
    }
  }

  lemma AbsorbNotEmpty(f: bool, s: Spine, t: Ty)
    ensures Absorb(f, s, t) != Empty
    decreases t
  {
    if t.TApp? {
      AbsorbNotEmpty(f, s, t.fn);
    } else if t.TTransfer? {
      AbsorbNotEmpty(f, FeedName(f, s, Word(t.mode)), t.body);
    }
  }

  predicate IsSpine(t: Ty)
  {
    t.TApp? || t.TTransfer? || t.TVar?
  }

  lemma RereadOutside(f: bool, t: Ty)
    requires !IsSpine(t)
    ensures Reread(f, t) == RereadOther(f, t)
  {
    hide RereadOther;
  }

  /** A bracket group around one type is that type. */
  lemma GroupOne(f: bool, ts: Stream, u: Option<Ty>, rest: Stream)
    requires StartsAtom(Peek(ts)) && !RowWords(ts)
    requires Back(ParseType(f, ts), u, Cons(RParen, rest))
    ensures ParseAtom(f, Cons(LParen, ts)) == Lift(u, rest)
  {
    hide ParseType;
    assert Back(ParseItems(f, ts), if u.Some? then Some(Cons(u.value, Nil)) else None, Cons(RParen, rest));
    hide ParseItems;
    assert ParseAtom(f, Cons(LParen, ts)) == ParseGroup(f, ts);
  }

  lemma GroupBack(f: bool, t: Ty, rest: Stream)
    requires Wf(t) && Prec(t) < TP_ATOM && !RowApplied(t)
    requires var rest' := Cons(RParen, rest); Back(ParseType(f, Print(t, TP_TYPE, rest')), Reread(f, t), rest')
    ensures ParseAtom(f, Print(t, TP_ATOM, rest)) == Lift(Reread(f, t), rest)
  {
    CleanInner(t, Cons(RParen, rest));
    RowWordsOnly(t, TP_TYPE, Cons(RParen, rest));
    assert Print(t, TP_TYPE, Cons(RParen, rest)) == Inner(t, Cons(RParen, rest));
    assert Print(t, TP_ATOM, rest) == Cons(LParen, Inner(t, Cons(RParen, rest)));
    hide Inner, Print, Reread, ParseType, ParseAtom, Wf, RowWords, RowApplied;
    GroupOne(f, Inner(t, Cons(RParen, rest)), Reread(f, t), rest);
  }

  lemma {:induction false} TypeBack(f: bool, t: Ty, rest: Stream)
    requires Wf(t) && TypeFollow(Peek(rest))
    ensures Back(ParseType(f, Print(t, TP_TYPE, rest)), Reread(f, t), rest)
    decreases t, if Prec(t) >= TP_APP then 7 else 2
  {
    if t.TQual? {
      QualBack(f, t, rest);
    } else if t.TWith? {
      WithBack(f, t, rest);
    } else {
      ArrowBack(f, t, rest);
      assert Print(t, TP_TYPE, rest) == Print(t, TP_ARROW, rest);
      hide ParseArrow, Reread, Wf, Print;
    }
  }

  lemma {:induction false} QualBack(f: bool, t: Ty, rest: Stream)
    requires Wf(t) && t.TQual? && TypeFollow(Peek(rest))
    ensures Back(ParseType(f, Print(t, TP_TYPE, rest)), Reread(f, t), rest)
    decreases t, 0
  {
    var more := Cons(FatArrow, Print(t.body, TP_TYPE, rest));
    RereadOutside(f, t);
    ArrowBack(f, t.ctx, more);
    TypeBack(f, t.body, rest);
    assert Print(t, TP_TYPE, rest) == Print(t.ctx, TP_ARROW, more);
    hide Print, ParseArrow, Reread, Wf;
  }

  lemma {:induction false} WithBack(f: bool, t: Ty, rest: Stream)
    requires Wf(t) && t.TWith? && TypeFollow(Peek(rest))
    ensures Back(ParseType(f, Print(t, TP_TYPE, rest)), Reread(f, t), rest)
    decreases t, 0
  {
    var more := Cons(With, PrintRow(t.row, rest));
    RereadOutside(f, t);
    ArrowBack(f, t.body, more);
    RowBack(f, t.row, rest);
    assert Print(t, TP_TYPE, rest) == Print(t.body, TP_ARROW, more);
    hide Print, ParseArrow, PrintRow, ParseRow, Reread, RereadRow, Wf;
  }

  lemma {:induction false} ArrowBack(f: bool, t: Ty, rest: Stream)
    requires Wf(t) && ArrowFollow(Peek(rest))
    ensures ParseArrow(f, Print(t, TP_ARROW, rest)) == Lift(Reread(f, t), rest)
    decreases t, if t.TFun? then 1 else if Prec(t) >= TP_APP then 6 else 5
  {
    if t.TFun? {
      var more := Cons(Arrow, Print(t.to, TP_ARROW, rest));
      RereadOutside(f, t);
      SpineBack(f, t.from, more);
      ArrowBack(f, t.to, rest);
      assert Print(t, TP_ARROW, rest) == Print(t.from, TP_APP, more);
    } else {
      SpineBack(f, t, rest);
      assert Print(t, TP_ARROW, rest) == Print(t, TP_APP, rest);
    }
    hide Print, ParseTypeApp, Reread, Wf;
  }

  lemma {:induction false} SpineBack(f: bool, t: Ty, rest: Stream)
    requires Wf(t) && AppFollow(Peek(rest))
    ensures ParseTypeApp(f, Print(t, TP_APP, rest)) == Lift(Reread(f, t), rest)
    decreases t, if Prec(t) >= TP_APP then 5 else 4, 1
  {
    AppBack(f, Empty, t, rest);
    AbsorbNotEmpty(f, Empty, t);
    ResumeEnd(f, Absorb(f, Empty, t), rest);
    hide Print, ParseTypeApp, Absorb, Wf;
  }

  lemma {:induction false} AppBack(f: bool, s: Spine, t: Ty, rest: Stream)
    requires Wf(t) && !Peek(rest).Dot?
    ensures Resume(f, s, Print(t, TP_APP, rest)) == Resume(f, Absorb(f, s, t), rest)
    decreases t, if Prec(t) >= TP_APP then 5 else 4, 0
  {
    if t.TVar? {
      hide Resume;
      ResumeName(f, s, t.name, rest);
    } else if t.TApp? {
      var more := Print(t.arg, TP_ATOM, rest);
      CleanPrint(t.arg, TP_ATOM, rest);
      AppBack(f, s, t.fn, more);
      AtomBack(f, t.arg, rest);
      AbsorbNotEmpty(f, s, t.fn);
      assert Print(t, TP_APP, rest) == Print(t.fn, TP_APP, more);
      hide Print, Resume, RereadArg, Wf, ParseAtom;
      ResumeAtom(f, Absorb(f, s, t.fn), more, RereadArg(f, t.arg), rest);
    } else if t.TTransfer? {
      ResumeName(f, s, Word(t.mode), Print(t.body, TP_APP, rest));
      AppBack(f, FeedName(f, s, Word(t.mode)), t.body, rest);
      assert Print(t, TP_APP, rest) == Cons(VarId(Word(t.mode)), Print(t.body, TP_APP, rest));
      hide Print, Resume, FeedName, Wf;
    } else {
      OtherBack(f, t, rest);
      OtherAtom(f, s, t, rest);
    }
  }

  lemma OtherAtom(f: bool, s: Spine, t: Ty, rest: Stream)
    requires Wf(t) && !IsSpine(t) && ParseAtom(f, Print(t, TP_ATOM, rest)) == Lift(Reread(f, t), rest)
    ensures Resume(f, s, Print(t, TP_APP, rest)) == Resume(f, Absorb(f, s, t), rest)
  {
    var ts := Print(t, TP_ATOM, rest);
    assert Print(t, TP_APP, rest) == ts;
    CleanPrint(t, TP_ATOM, rest);
    OtherFirst(t, rest);
    RereadOutside(f, t);
    hide Print, Resume, ParseAtom, Reread, RereadOther, Wf;
    ResumeAtom(f, s, ts, Reread(f, t), rest);
  }

  lemma OtherFirst(t: Ty, rest: Stream)
    requires Wf(t) && !IsSpine(t)
    ensures !Peek(Print(t, TP_ATOM, rest)).VarId?
  {
  }

  /** A type that is no spine, at atom level: bracketed or an atom of its own. */
  lemma {:induction false} OtherBack(f: bool, t: Ty, rest: Stream)
    requires Wf(t) && !IsSpine(t) && !Peek(rest).Dot?
    ensures ParseAtom(f, Print(t, TP_ATOM, rest)) == Lift(Reread(f, t), rest)
    decreases t, 3
  {
    if Prec(t) < TP_ATOM {
      TypeBack(f, t, Cons(RParen, rest));
      GroupBack(f, t, rest);
    } else {
      RereadOutside(f, t);
      ClosedBack(f, t, rest);
    }
  }

  lemma {:induction false} ClosedBack(f: bool, t: Ty, rest: Stream)
    requires Wf(t) && !IsSpine(t) && Prec(t) == TP_ATOM && !Peek(rest).Dot?
    ensures ParseAtom(f, Inner(t, rest)) == Lift(RereadOther(f, t), rest)
    decreases t, 0
  {
    if t.TCon? {
      PathBack(t.path, rest);
      hide ParsePath, PrintPath;
      assert Peek(PrintPath(t.path, rest)).ConId? by {
        PathFirst(t.path, rest);
      }
    } else if t.TList? {
      TypeBack(f, t.elem, Cons(RBracket, rest));
      hide ParseType, Print, Reread, Wf;
    } else if t.TTuple? {
      ItemsBack(f, t.items, Cons(RParen, rest));
      CleanPrint(t.items.head, TP_TYPE, Cons(Comma, PrintItems(t.items.tail, Cons(RParen, rest))));
      RereadItemsShape(f, t.items);
      RowWordsOnly(t.items.head, TP_TYPE, Cons(Comma, PrintItems(t.items.tail, Cons(RParen, rest))));
      hide RowWords, Back, Print, ParseItems, RereadItems, Wf, StartsAtom, ParseAtom;
      GroupMany(f, PrintItems(t.items, Cons(RParen, rest)), RereadItems(f, t.items), rest);
    }
  }

  lemma GroupMany(f: bool, ts: Stream, us: Option<List<Ty>>, rest: Stream)
    requires StartsAtom(Peek(ts)) && !RowWords(ts)
    requires Back(ParseItems(f, ts), us, Cons(RParen, rest)) && (us.Some? ==> us.value.Cons? && us.value.tail.Cons?)
    ensures ParseAtom(f, Cons(LParen, ts)) == if us.Some? then Ok(TTuple(us.value), rest) else Fail
  {
    hide ParseItems;
    assert ParseAtom(f, Cons(LParen, ts)) == ParseGroup(f, ts);
  }

  lemma PathFirst(path: List<string>, rest: Stream)
    requires path.Cons?
    ensures Peek(PrintPath(path, rest)).ConId?
  {
  }

  lemma RereadItemsShape(f: bool, items: List<Ty>)
    ensures var r := RereadItems(f, items);
            r.Some? ==> Len(r.value) == Len(items)
    decreases items
  {
    if items.Cons? {
      RereadItemsShape(f, items.tail);
    }
  }

  lemma RowGroup(f: bool, x: string, rest: Stream)
    ensures ParseAtom(f, Print(TApp(TVar("row"), TVar(x)), TP_ATOM, rest)) == Ok(TRowArg(x), rest)
  {
    RowCollides(x, rest);
    assert Print(TRowArg(x), TP_ATOM, rest) ==
           Cons(LParen, Cons(VarId("row"), Cons(VarId(x), Cons(RParen, rest))));
    hide Print;
  }

  lemma {:induction false} AtomBack(f: bool, t: Ty, rest: Stream)
    requires Wf(t) && !Peek(rest).Dot?
    ensures ParseAtom(f, Print(t, TP_ATOM, rest)) == Lift(RereadArg(f, t), rest)
    decreases t, 8
  {
    if t.TVar? {
    } else if RowApplied(t) {
      RowGroup(f, t.arg.name, rest);
    } else if IsSpine(t) {
      TypeBack(f, t, Cons(RParen, rest));
      GroupBack(f, t, rest);
      hide Print, ParseAtom, Reread, Wf;
    } else {
      OtherBack(f, t, rest);
      hide Print, ParseAtom, Reread, Wf;
    }
  }

  lemma {:induction false} ItemsBack(f: bool, items: List<Ty>, rest: Stream)
    requires items.Cons? && WfItems(items) && TypeFollow(Peek(rest)) && !Peek(rest).Comma?
    ensures Back(ParseItems(f, PrintItems(items, rest)), RereadItems(f, items), rest)
    decreases items, 9
  {
    if items.tail == Nil {
      TypeBack(f, items.head, rest);
      assert RereadItems(f, items.tail) == Some(Nil);
      hide Print, ParseType, Reread, Wf, StartsAtom;
    } else {
      var more := Cons(Comma, PrintItems(items.tail, rest));
      TypeBack(f, items.head, more);
      ItemsBack(f, items.tail, rest);
      assert PrintItems(items, rest) == Print(items.head, TP_TYPE, more);
      hide Print, PrintItems, ParseType, Reread, Wf, StartsAtom;
      ItemsStep(f, Print(items.head, TP_TYPE, more), Reread(f, items.head), PrintItems(items.tail, rest),
                RereadItems(f, items.tail), rest);
    }
  }

  lemma ItemsStep(f: bool, ts: Stream, u: Option<Ty>, more: Stream, us: Option<List<Ty>>, rest: Stream)
    requires Back(ParseType(f, ts), u, Cons(Comma, more)) && Back(ParseItems(f, more), us, rest)
    ensures Back(ParseItems(f, ts), if u.Some? && us.Some? then Some(Cons(u.value, us.value)) else None, rest)
  {
    hide ParseType;
  }

  lemma {:induction false} RowBack(f: bool, row: List<Row>, rest: Stream)
    requires row.Cons? && WfRow(row) && TypeFollow(Peek(rest))
    ensures Back(ParseRow(f, PrintRow(row, rest)), RereadRow(f, row), rest)
    decreases row, 9
  {
    if row.tail == Nil {
      EntryBack(f, row.head, rest);
      assert RereadRow(f, row.tail) == Some(Nil);
      hide PrintEntry, ParseEntry, RereadEntry, Wf, StartsAtom;
    } else {
      var more := Cons(VarSym("+"), PrintRow(row.tail, rest));
      EntryBack(f, row.head, more);
      RowBack(f, row.tail, rest);
      assert PrintRow(row, rest) == PrintEntry(row.head, more);
      hide PrintEntry, PrintRow, ParseEntry, RereadEntry, Wf, StartsAtom;
      RowStep(f, PrintEntry(row.head, more), RereadEntry(f, row.head), PrintRow(row.tail, rest), RereadRow(f, row.tail),
        rest);
    }
  }

  lemma RowStep(f: bool, ts: Stream, e: Option<Row>, more: Stream, es: Option<List<Row>>, rest: Stream)
    requires Back(ParseEntry(f, ts), e, Cons(VarSym("+"), more)) && Back(ParseRow(f, more), es, rest)
    ensures Back(ParseRow(f, ts), if e.Some? && es.Some? then Some(Cons(e.value, es.value)) else None, rest)
  {
    hide ParseEntry;
  }

  lemma {:induction false} EntryBack(f: bool, e: Row, rest: Stream)
    requires (e.EffVar? || Wf(e.ty)) && AppFollow(Peek(rest))
    ensures Back(ParseEntry(f, PrintEntry(e, rest)), RereadEntry(f, e), rest)
    decreases e, 9
  {
    if e.Role? {
      SpineBack(f, e.ty, Cons(RParen, rest));
      hide Print, ParseTypeApp, Reread, Wf;
    } else if e.Slot? {
      CleanPrint(e.ty, TP_APP, rest);
      EffWordsOnly(e.ty, rest);
      if EffHead(e.ty) {
        EffTail(e.ty, rest);
      } else {
        SpineBack(f, e.ty, rest);
      }
      hide Print, ParseTypeApp, Reread, Wf;
    }
  }

  // ---------------------------------------------------------------- which types come back

  /** Does the spine begin with a variable spelled like a transfer word? */
  predicate HeadWord(t: Ty)
  {
    match t
    case TApp(fn, _) => HeadWord(fn)
    case TVar(x) => ModeOf(x).Some?
    case _ => false
  }

  /**
    A transfer stands only where parse_typeapp looks for one, at the head of a foreign
    signature's spine: never as the function of an application, never right under another. And the
    words `eff` and `row` stand where they cannot be taken for the start of a row variable or argument.
   */
  predicate Readable(f: bool, t: Ty)
    decreases t, 2
  {
    match t
    case TTransfer(_, body) => f && Plain(f, body)
    case _ => Plain(f, t) && !(f && HeadWord(t))
  }

  predicate Plain(f: bool, t: Ty)
    decreases t, 1
  {
    match t
    case TApp(fn, arg) => Plain(f, fn) && (arg.TVar? || (!RowApplied(arg) && Readable(f, arg)))
    case TTransfer(_, _) => false
    case TVar(_) => true
    case _ => Inside(f, t)
  }

  predicate Inside(f: bool, t: Ty)
    decreases t, 0
  {
    match t
    case TFun(from, to) => Readable(f, from) && Readable(f, to)
    case TQual(ctx, body) => Readable(f, ctx) && Readable(f, body)
    case TWith(body, row) => Readable(f, body) && ReadableRow(f, row)
    case TList(elem) => Readable(f, elem)
    case TTuple(items) => ReadableItems(f, items)
    case _ => true
  }

  predicate ReadableItems(f: bool, items: List<Ty>)
    decreases items
  {
    items.Nil? || (Readable(f, items.head) && ReadableItems(f, items.tail))
  }

  predicate ReadableRow(f: bool, row: List<Row>)
    decreases row
  {
    row.Nil? || (ReadableEntry(f, row.head) && ReadableRow(f, row.tail))
  }

  predicate ReadableEntry(f: bool, e: Row)
    decreases e
  {
    match e
    case EffVar(_) => true
    case Role(_, t) => Readable(f, t)
    case Slot(t) => !EffHead(t) && Readable(f, t)
  }

  /** Items on the spine, counted through brackets: reading adds none. */
  function Weight(t: Ty): nat
    decreases t
  {
    match t
    case TApp(fn, arg) => Weight(fn) + Weight(arg)
    case TTransfer(_, body) => 1 + Weight(body)
    case _ => 1
  }

  lemma WeightPositive(t: Ty)
    ensures Weight(t) > 0
    decreases t
  {
    match t
    case TApp(fn, arg) => WeightPositive(fn);
    case _ =>
  }

  function SpineWeight(s: Spine): nat
  {
    match s
    case Built(mode, t) => Weight(t) + if mode.Some? then 1 else 0
    case Lone(_) => 1
    case _ => 0
  }

  lemma {:induction false} AbsorbWeight(f: bool, s: Spine, t: Ty)
    requires Absorb(f, s, t) != Stuck
    ensures SpineWeight(Absorb(f, s, t)) <= SpineWeight(s) + Weight(t)
    decreases t, 1
  {
    if t.TApp? {
      AbsorbWeight(f, s, t.fn);
      ArgWeight(f, t.arg);
      FeedWeight(Absorb(f, s, t.fn), RereadArg(f, t.arg).value);
    } else if t.TTransfer? {
      StuckStays(f, FeedName(f, s, Word(t.mode)), t.body);
      AbsorbWeight(f, FeedName(f, s, Word(t.mode)), t.body);
      FeedNameWeight(f, s, Word(t.mode));
    } else if t.TVar? {
      FeedNameWeight(f, s, t.name);
    } else {
      OtherKind(f, t);
      FeedWeight(s, RereadOther(f, t).value);
    }
  }

  lemma {:induction false} ArgWeight(f: bool, t: Ty)
    ensures RereadArg(f, t).Some? ==> Weight(RereadArg(f, t).value) <= Weight(t)
    decreases t, 3
  {
    if RowApplied(t) {
      assert Weight(t) == Weight(t.fn) + Weight(t.arg);
    } else if !t.TVar? && Reread(f, t).Some? {
      RereadWeight(f, t);
    }
  }

  lemma FeedWeight(s: Spine, u: Ty)
    requires s != Stuck
    ensures SpineWeight(Feed(s, Some(u))) == SpineWeight(s) + Weight(u)
  {
    if s.Built? {
      assert Weight(TApp(s.ty, u)) == Weight(s.ty) + Weight(u);
    }
  }

  lemma FeedNameWeight(f: bool, s: Spine, x: string)
    requires FeedName(f, s, x) != Stuck
    ensures SpineWeight(FeedName(f, s, x)) == SpineWeight(s) + 1
  {
    hide Transfer;
    if FeedName(f, s, x).Lone? {
      assert s.Empty?;
    } else {
      assert Weight(TVar(x)) == 1;
      FeedWeight(s, TVar(x));
    }
  }

  lemma StuckStays(f: bool, s: Spine, t: Ty)
    ensures s == Stuck ==> Absorb(f, s, t) == Stuck
    decreases t
  {
    if t.TApp? {
      StuckStays(f, s, t.fn);
    } else if t.TTransfer? {
      StuckStays(f, s, t.body);
    }
  }

  lemma OtherKind(f: bool, t: Ty)
    requires !IsSpine(t) && RereadOther(f, t).Some?
    ensures !IsSpine(RereadOther(f, t).value)
  {
  }

  lemma {:induction false} RereadWeight(f: bool, t: Ty)
    requires Reread(f, t).Some?
    ensures Weight(Reread(f, t).value) <= Weight(t)
    decreases t, 2
  {
    AbsorbWeight(f, Empty, t);
  }

  /** Once something stands on the spine, the word before it and the spine's shape are settled. */
  lemma {:induction false} AbsorbBuilt(f: bool, s: Spine, t: Ty)
    requires s.Built? || s.Lone?
    ensures var r := Absorb(f, s, t);
            r.Stuck? || (r.Built? && r.mode == (if s.Built? then s.mode else Some(s.word)) && (s.Built? ==> r.ty.TApp?))
    decreases t
  {
    if t.TApp? {
      AbsorbBuilt(f, s, t.fn);
    } else if t.TTransfer? {
      AbsorbBuilt(f, FeedName(f, s, Word(t.mode)), t.body);
    }
  }

  function Ready(s: Spine, t: Ty): Spine
  {
    if s.Lone? then Built(Some(s.word), t) else Built(None, t)
  }

  lemma {:induction false} PlainAbsorbs(f: bool, s: Spine, t: Ty)
    requires Plain(f, t) && Wf(t) && (s.Lone? || (s.Empty? && !(f && HeadWord(t))))
    ensures Absorb(f, s, t) == Ready(s, t)
    decreases t, 1
  {
    if t.TApp? {
      PlainAbsorbs(f, s, t.fn);
      if !t.arg.TVar? {
        ReadableBack(f, t.arg);
      }
    } else if !t.TVar? {
      InsideBack(f, t);
    }
  }

  lemma {:induction false} ReadableBack(f: bool, t: Ty)
    requires Readable(f, t) && Wf(t)
    ensures Reread(f, t) == Some(t)
    decreases t, 2
  {
    if t.TTransfer? {
      PlainAbsorbs(f, Lone(t.mode), t.body);
    } else {
      PlainAbsorbs(f, Empty, t);
    }
  }

  lemma {:induction false} InsideBack(f: bool, t: Ty)
    requires !IsSpine(t) && Wf(t) && Inside(f, t)
    ensures RereadOther(f, t) == Some(t)
    decreases t, 0
  {
    if t.TFun? {
      ReadableBack(f, t.from);
      ReadableBack(f, t.to);
    } else if t.TQual? {
      ReadableBack(f, t.ctx);
      ReadableBack(f, t.body);
    } else if t.TWith? {
      ReadableBack(f, t.body);
      RowReadable(f, t.row);
    } else if t.TList? {
      ReadableBack(f, t.elem);
    } else if t.TTuple? {
      ItemsReadable(f, t.items);
    }
    hide Reread, RereadRow, RereadItems;
  }

  lemma {:induction false} ItemsReadable(f: bool, items: List<Ty>)
    requires WfItems(items)
    ensures ReadableItems(f, items) ==> RereadItems(f, items) == Some(items)
    decreases items
  {
    if items.Cons? && ReadableItems(f, items) {
      ReadableBack(f, items.head);
      ItemsReadable(f, items.tail);
    }
  }

  lemma {:induction false} EntryReadable(f: bool, e: Row)
    requires (e.EffVar? || Wf(e.ty)) && ReadableEntry(f, e)
    ensures RereadEntry(f, e) == Some(e)
    decreases e
  {
    if !e.EffVar? {
      ReadableBack(f, e.ty);
      AppliedHeads(e.ty);
    }
    hide Reread;
  }

  lemma {:induction false} RowReadable(f: bool, row: List<Row>)
    requires WfRow(row)
    ensures ReadableRow(f, row) ==> RereadRow(f, row) == Some(row)
    decreases row
  {
    if row.Cons? && ReadableRow(f, row) {
      EntryReadable(f, row.head);
      RowReadable(f, row.tail);
    }
  }

  // The converse: a type that comes back was readable.

  lemma {:induction false} AbsorbedPlain(f: bool, s: Spine, t: Ty)
    requires s.Empty? || s.Lone?
    requires Wf(t) && Absorb(f, s, t) == Ready(s, t)
    ensures Plain(f, t) && (s.Empty? ==> !(f && HeadWord(t)))
    decreases t, 1
  {
    if t.TApp? {
      AbsorbedApp(f, s, t);
    } else if t.TTransfer? {
      var s' := FeedName(f, s, Word(t.mode));
      AbsorbBuilt(f, s', t.body);
    } else if !t.TVar? {
      InsideOf(f, t);
    }
  }

  lemma {:induction false} AbsorbedApp(f: bool, s: Spine, t: Ty)
    requires s.Empty? || s.Lone?
    requires t.TApp? && Wf(t) && Absorb(f, s, t) == Ready(s, t)
    ensures Plain(f, t) && (s.Empty? ==> !(f && HeadWord(t)))
    decreases t, 0
  {
    var a := Absorb(f, s, t.fn);
    AbsorbNotEmpty(f, s, t.fn);
    WeightPositive(t.fn);
    ArgWeight(f, t.arg);
    assert Weight(t) == Weight(t.fn) + Weight(t.arg);
    assert a.Built? && a == Ready(s, t.fn);
    AbsorbedPlain(f, s, t.fn);
    if !t.arg.TVar? {
      ReadableOf(f, t.arg);
    }
  }

  lemma {:induction false} ReadableOf(f: bool, t: Ty)
    requires Wf(t) && Reread(f, t) == Some(t)
    ensures Readable(f, t)
    decreases t, 2
  {
    if t.TTransfer? {
      TransferOf(f, t);
      AbsorbedPlain(f, Lone(t.mode), t.body);
    } else {
      AbsorbedPlain(f, Empty, t);
    }
  }

  lemma TransferOf(f: bool, t: Ty)
    requires t.TTransfer? && Reread(f, t) == Some(t)
    ensures f && Absorb(f, Lone(t.mode), t.body) == Ready(Lone(t.mode), t.body)
  {
    AbsorbBuilt(f, FeedName(f, Empty, Word(t.mode)), t.body);
  }

  lemma {:induction false} InsideOf(f: bool, t: Ty)
    requires !IsSpine(t) && Wf(t) && RereadOther(f, t) == Some(t)
    ensures Inside(f, t)
    decreases t, 0
  {
    if t.TFun? {
      ReadableOf(f, t.from);
      ReadableOf(f, t.to);
    } else if t.TQual? {
      ReadableOf(f, t.ctx);
      ReadableOf(f, t.body);
    } else if t.TWith? {
      ReadableOf(f, t.body);
      RowOf(f, t.row);
    } else if t.TList? {
      ReadableOf(f, t.elem);
    } else if t.TTuple? {
      ItemsOf(f, t.items);
    }
  }

  lemma {:induction false} ItemsOf(f: bool, items: List<Ty>)
    requires WfItems(items) && RereadItems(f, items) == Some(items)
    ensures ReadableItems(f, items)
    decreases items
  {
    if items.Cons? {
      ReadableOf(f, items.head);
      ItemsOf(f, items.tail);
    }
  }

  lemma {:induction false} RowOf(f: bool, row: List<Row>)
    requires WfRow(row) && RereadRow(f, row) == Some(row)
    ensures ReadableRow(f, row)
    decreases row
  {
    if row.Cons? {
      if !row.head.EffVar? {
        EntryOf(f, row.head);
        ReadableOf(f, row.head.ty);
      }
      RowOf(f, row.tail);
    }
  }

  lemma EntryOf(f: bool, e: Row)
    requires !e.EffVar? && RereadEntry(f, e) == Some(e)
    ensures Reread(f, e.ty) == Some(e.ty) && (e.Slot? ==> !EffHead(e.ty))
  {
    hide Reread;
  }

  lemma AppliedHeads(t: Ty)
    ensures EffApplied(t) ==> EffHead(t)
  {
  }

  // ---------------------------------------------------------------- the theorems

  /**
    Printing then parsing a type is the identity, before any token that cannot extend it, for
    exactly the readable types; outside foreign signatures those are the types without transfers.
   */
  lemma TypeRoundTrip(f: bool, t: Ty, rest: Stream)
    requires Wf(t) && TypeFollow(Peek(rest))
    ensures ParseType(f, Print(t, TP_TYPE, rest)) == Ok(t, rest) <==> Readable(f, t)
  {
    TypeBack(f, t, rest);
    hide *;
    ReadableExactly(f, t);
    BackExactly(ParseType(f, Print(t, TP_TYPE, rest)), Reread(f, t), t, rest);
  }

  /** The same at the function level, in front of a `with` or a `=>`. */
  lemma ArrowRoundTrip(f: bool, t: Ty, rest: Stream)
    requires Wf(t) && ArrowFollow(Peek(rest))
    ensures ParseArrow(f, Print(t, TP_ARROW, rest)) == Ok(t, rest) <==> Readable(f, t)
  {
    ArrowBack(f, t, rest);
    hide *;
    ReadableExactly(f, t);
    LiftExactly(Reread(f, t), t, rest);
  }

  /** The same at the application level, where rows read their slots. */
  lemma SpineRoundTrip(f: bool, t: Ty, rest: Stream)
    requires Wf(t) && AppFollow(Peek(rest))
    ensures ParseTypeApp(f, Print(t, TP_APP, rest)) == Ok(t, rest) <==> Readable(f, t)
  {
    SpineBack(f, t, rest);
    hide *;
    ReadableExactly(f, t);
    LiftExactly(Reread(f, t), t, rest);
  }

  lemma ReadableExactly(f: bool, t: Ty)
    requires Wf(t)
    ensures Reread(f, t) == Some(t) <==> Readable(f, t)
  {
    hide *;
    if Readable(f, t) {
      ReadableBack(f, t);
    }
    if Reread(f, t) == Some(t) {
      ReadableOf(f, t);
    }
  }

  lemma LiftExactly<T>(r: Option<T>, t: T, rest: Stream)
    ensures Lift(r, rest) == Ok(t, rest) <==> r == Some(t)
  {
  }

  lemma BackExactly<T>(r: Result<T>, u: Option<T>, t: T, rest: Stream)
    requires Back(r, u, rest) && TypeFollow(Peek(rest))
    ensures r == Ok(t, rest) <==> u == Some(t)
  {
  }

  /** Where it fails: a transfer as the function of an application comes back around it. */
  lemma TransferMovesOut(m: Mode, x: string, y: string, rest: Stream)
    requires TypeFollow(Peek(rest))
    ensures ParseType(true, Print(TApp(TTransfer(m, TVar(x)), TVar(y)), TP_TYPE, rest)) ==
            Ok(TTransfer(m, TApp(TVar(x), TVar(y))), rest)
  {
    var t := TApp(TTransfer(m, TVar(x)), TVar(y));
    assert Wf(TTransfer(m, TVar(x))) && Wf(TVar(x));
    TypeBack(true, t, rest);
    hide Print, ParseType;
    assert Absorb(true, Lone(m), TVar(x)) == Built(Some(m), TVar(x));
    assert Absorb(true, Empty, TTransfer(m, TVar(x))) == Built(Some(m), TVar(x));
    assert Absorb(true, Empty, t) == Feed(Built(Some(m), TVar(x)), Some(TVar(y)));
  }

  /** Where it fails: a variable spelled like a transfer, at the head of a foreign spine, is read as one. */
  lemma HeadWordTaken(m: Mode, y: string, rest: Stream)
    requires TypeFollow(Peek(rest))
    ensures ParseType(true, Print(TApp(TVar(Word(m)), TVar(y)), TP_TYPE, rest)) == Ok(TTransfer(m, TVar(y)), rest)
  {
    var t := TApp(TVar(Word(m)), TVar(y));
    TypeBack(true, t, rest);
    hide Print, ParseType;
    assert Absorb(true, Empty, TVar(Word(m))) == Lone(m);
    assert Absorb(true, Empty, t) == Feed(Lone(m), Some(TVar(y)));
  }

  /** Where it fails: these two row entries are written with the same tokens. */
  lemma EffCollides(x: string, rest: Stream)
    ensures PrintEntry(Slot(TApp(TVar("eff"), TVar(x))), rest) == PrintEntry(EffVar(x), rest)
  {
    assert Print(TVar(x), TP_ATOM, rest) == Cons(VarId(x), rest);
    assert Print(TVar("eff"), TP_APP, Cons(VarId(x), rest)) == Cons(VarId("eff"), Cons(VarId(x), rest));
    assert Print(TApp(TVar("eff"), TVar(x)), TP_APP, rest) == Inner(TApp(TVar("eff"), TVar(x)), rest);
  }

  /** And so are these two arguments. */
  lemma RowCollides(x: string, rest: Stream)
    ensures Print(TApp(TVar("row"), TVar(x)), TP_ATOM, rest) == Print(TRowArg(x), TP_ATOM, rest)
  {
    var end: Stream := Cons(RParen, rest);
    assert Print(TVar(x), TP_ATOM, end) == Cons(VarId(x), end);
    assert Print(TVar("row"), TP_APP, Cons(VarId(x), end)) == Cons(VarId("row"), Cons(VarId(x), end));
  }
}
