/**
  Patterns between the printer and the parser: grammar/c/wok_print.c:392-548 and 1582-1672,
  grammar/c/wok_parse.c:830-1048.
*/
module PatternLadder {
  import opened Tokens

  datatype Pat =
    | PErr
    | PVar(name: string)
    | PWild
    | PInt(value: nat, negative: bool)
    | PStr(text: string)
    | PChar(text: string)
    | PCon(path: List<string>, args: List<Pat>)
    | PCons(hd: Pat, tl: Pat)
    | PTuple(items: List<Pat>)
    | PList(items: List<Pat>)
    | PUnit
    | PAs(pat: Pat, name: string)
    | PRecord(path: List<string>, fields: List<FieldPat>, open: bool, remainder: Option<string>)

  datatype FieldPat = FieldPat(name: string, pat: Pat)

  /** What the parser's own nodes guarantee: two or more items in a tuple, no remainder unless open. */
  predicate Wf(p: Pat)
    decreases p
  {
    match p
    case PErr => false
    case PCon(path, args) => path.Cons? && WfAll(args)
    case PCons(h, t) => Wf(h) && Wf(t)
    case PTuple(items) => items.Cons? && items.tail.Cons? && WfAll(items)
    case PList(items) => WfAll(items)
    case PAs(q, _) => Wf(q)
    case PRecord(path, fields, open, remainder) => path.Cons? && WfFields(fields) && (remainder.Some? ==> open)
    case _ => true
  }

  predicate WfAll(ps: List<Pat>)
    decreases ps
  {
    ps.Nil? || (Wf(ps.head) && WfAll(ps.tail))
  }

  predicate WfFields(fs: List<FieldPat>)
    decreases fs
  {
    fs.Nil? || (Wf(fs.head.pat) && WfFields(fs.tail))
  }

  // ---------------------------------------------------------------- the printer

  const PP_PAT := 0
  const PP_APP := 1
  const PP_ATOM := 2

  function Prec(p: Pat): nat
  {
    match p
    case PCon(_, args) => if args.Cons? then PP_APP else PP_ATOM
    case PCons(_, _) => PP_PAT
    case _ => PP_ATOM
  }

  /** A leading `-` is bracketed where it would continue the line before, or read as an infix head. */
  predicate NeedsLeadParen(p: Pat)
  {
    p.PInt? && p.negative
  }

  function Print(p: Pat, prec: nat, lead: bool, rest: Stream): Stream
    decreases p, 1
  {
    if Prec(p) < prec || (lead && NeedsLeadParen(p)) then Cons(LParen, Inner(p, false, Cons(RParen, rest)))
    else Inner(p, lead, rest)
  }

  function Inner(p: Pat, lead: bool, rest: Stream): Stream
    decreases p, 0
  {
    match p
    case PErr => rest
    case PVar(x) => Cons(VarId(x), rest)
    case PWild => Cons(Underscore, rest)
    case PInt(v, negative) => if negative then Cons(VarSym("-"), Cons(IntLit(v), rest)) else Cons(IntLit(v), rest)
    case PStr(s) => Cons(StrLit(s), rest)
    case PChar(s) => Cons(CharLit(s), rest)
    case PCon(path, args) => PrintPath(path, PrintArgs(args, false, rest))
    case PCons(h, t) => Print(h, PP_APP, lead, Cons(ColonColon, Print(t, PP_PAT, false, rest)))
    case PTuple(items) => Cons(LParen, PrintItems(items, Cons(RParen, rest)))
    case PList(items) => Cons(LBracket, PrintItems(items, Cons(RBracket, rest)))
    case PUnit => Cons(LParen, Cons(RParen, rest))
    case PAs(q, x) => Print(q, PP_ATOM, lead, Cons(As, Cons(VarId(x), rest)))
    case PRecord(path, fields, open, remainder) =>
      PrintPath(path, Cons(LBrace, PrintOpen(open, remainder, fields.Cons?, PrintFields(fields, Cons(RBrace, rest)))))
  }

  /** Juxtaposed arguments; `guard` marks the first argument of a prefix left-hand side. */
  function PrintArgs(args: List<Pat>, guard: bool, rest: Stream): Stream
    decreases args, 2
  {
    match args
    case Nil => rest
    case Cons(p, ps) => Print(p, PP_ATOM, guard, PrintArgs(ps, false, rest))
  }

  function PrintItems(items: List<Pat>, rest: Stream): Stream
    decreases items, 2
  {
    match items
    case Nil => rest
    case Cons(p, ps) => Print(p, PP_PAT, false, if ps == Nil then rest else Cons(Comma, PrintItems(ps, rest)))
  }

  function PrintOpen(open: bool, remainder: Option<string>, more: bool, rest: Stream): Stream
  {
    if !open then rest
    else
      var after := if more then Cons(Comma, rest) else rest;
      Cons(DotDot, if remainder.Some? then Cons(VarId(remainder.value), after) else after)
  }

  function PrintFields(fields: List<FieldPat>, rest: Stream): Stream
    decreases fields, 2
  {
    match fields
    case Nil => rest
    case Cons(x, xs) => PrintField(x, if xs == Nil then rest else Cons(Comma, PrintFields(xs, rest)))
  }

  /** A field bound to its own name is punned. */
  function PrintField(x: FieldPat, rest: Stream): Stream
    decreases x, 2
  {
    if x.pat == PVar(x.name) then Cons(VarId(x.name), rest)
    else Cons(VarId(x.name), Cons(Equals, Print(x.pat, PP_PAT, false, rest)))
  }

  // ---------------------------------------------------------------- the parser

  predicate StartsAtomPat(ts: Stream)
  {
    var t := Peek(ts);
    || t.VarId? || t.ConId? || t.Underscore? || t.IntLit? || t.StrLit? || t.CharLit? || t.LParen? || t.LBracket?
    || (t.VarSym? && Peek2(ts).IntLit?)
  }

  function ParsePat(ts: Stream): (r: Result<Pat>)
    ensures r.Ok? ==> Len(r.rest) < Len(ts)
    decreases Len(ts), 3
  {
    match ParsePatApp(ts)
    case Fail => Fail
    case Ok(h, rest) =>
      if Peek(rest).ColonColon? then
        match ParsePat(Rest(rest))
        case Fail => Fail
        case Ok(t, rest') => Ok(PCons(h, t), rest')
      else Ok(h, rest)
  }

  function ParsePatApp(ts: Stream): (r: Result<Pat>)
    ensures r.Ok? ==> Len(r.rest) < Len(ts)
    decreases Len(ts), 2
  {
    if !Peek(ts).ConId? then ParseAtomPat(ts)
    else
      match ParsePath(ts)
      case Fail => Fail
      case Ok(path, rest) =>
        if Peek(rest).LBrace? then ParseTail(ParseRecord(path, Rest(rest)))
        else if !StartsAtomPat(rest) then ParseTail(Ok(PCon(path, Nil), rest))
        else
          match ParseArgs(rest)
          case Fail => Fail
          case Ok(args, rest') => Ok(PCon(path, args), rest')
  }

  function ParseArgs(ts: Stream): (r: Result<List<Pat>>)
    ensures r.Ok? ==> Len(r.rest) <= Len(ts)
    decreases Len(ts), 2
  {
    if !StartsAtomPat(ts) then Ok(Nil, ts)
    else
      match ParseAtomPat(ts)
      case Fail => Fail
      case Ok(p, rest) =>
        match ParseArgs(rest)
        case Fail => Fail
        case Ok(ps, rest') => Ok(Cons(p, ps), rest')
  }

  /** Any number of `as name`, each around what stands before it. */
  function ParseTail(r: Result<Pat>): (s: Result<Pat>)
    ensures s.Ok? ==> r.Ok? && Len(s.rest) <= Len(r.rest)
    decreases if r.Ok? then Len(r.rest) else 0
  {
    if r.Fail? || !Peek(r.rest).As? then r
    else if !Peek2(r.rest).VarId? then Fail
    else ParseTail(Ok(PAs(r.value, Peek2(r.rest).s), Rest(Rest(r.rest))))
  }

  function ParseAtomPat(ts: Stream): (r: Result<Pat>)
    ensures r.Ok? ==> Len(r.rest) < Len(ts)
    decreases Len(ts), 1
  {
    ParseTail(ParseCore(ts))
  }

  function ParseCore(ts: Stream): (r: Result<Pat>)
    ensures r.Ok? ==> Len(r.rest) < Len(ts)
    decreases Len(ts), 0
  {
    match Peek(ts)
    case VarId(x) => Ok(PVar(x), Rest(ts))
    case Underscore => Ok(PWild, Rest(ts))
    case IntLit(v) => Ok(PInt(v, false), Rest(ts))
    case VarSym(_) => if Peek2(ts).IntLit? then Ok(PInt(Peek2(ts).v, true), Rest(Rest(ts))) else Fail
    case StrLit(s) => Ok(PStr(s), Rest(ts))
    case CharLit(s) => Ok(PChar(s), Rest(ts))
    case ConId(_) =>
      (match ParsePath(ts)
       case Fail => Fail
       case Ok(path, rest) =>
         if Peek(rest).LBrace? then ParseRecord(path, Rest(rest)) else Ok(PCon(path, Nil), rest))
    case LParen => ParseParens(Rest(ts))
    case LBracket => ParseBrackets(Rest(ts))
    case _ => Fail
  }

  /** After a `(`. */
  function ParseParens(ts: Stream): (r: Result<Pat>)
    ensures r.Ok? ==> Len(r.rest) <= Len(ts)
    decreases Len(ts), 5
  {
    if Peek(ts).RParen? then Ok(PUnit, Rest(ts))
    else
      match ParseItems(ts)
      case Fail => Fail
      case Ok(items, rest) =>
        if !Peek(rest).RParen? then Fail
        else Ok(if items.tail == Nil then items.head else PTuple(items), Rest(rest))
  }

  /** After a `[`. */
  function ParseBrackets(ts: Stream): (r: Result<Pat>)
    ensures r.Ok? ==> Len(r.rest) <= Len(ts)
    decreases Len(ts), 5
  {
    if Peek(ts).RBracket? then Ok(PList(Nil), Rest(ts))
    else
      match ParseItems(ts)
      case Fail => Fail
      case Ok(items, rest) => if Peek(rest).RBracket? then Ok(PList(items), Rest(rest)) else Fail
  }

  function ParseItems(ts: Stream): (r: Result<List<Pat>>)
    ensures r.Ok? ==> r.value.Cons? && Len(r.rest) < Len(ts)
    decreases Len(ts), 4
  {
    match ParsePat(ts)
    case Fail => Fail
    case Ok(p, rest) =>
      if Peek(rest).Comma? then
        match ParseItems(Rest(rest))
        case Fail => Fail
        case Ok(more, rest') => Ok(Cons(p, more), rest')
      else Ok(Cons(p, Nil), rest)
  }

  /** After the `{`. */
  function ParseRecord(path: List<string>, ts: Stream): (r: Result<Pat>)
    ensures r.Ok? ==> Len(r.rest) <= Len(ts)
    decreases Len(ts), 7
  {
    var open := Peek(ts).DotDot?;
    var afterDots := if open then Rest(ts) else ts;
    var remainder := if open && Peek(afterDots).VarId? then Some(Peek(afterDots).s) else None;
    var afterName := if remainder.Some? then Rest(afterDots) else afterDots;
    var start := if open && Peek(afterName).Comma? then Rest(afterName) else afterName;
    ParseBraced(path, open, remainder, start)
  }

  function ParseBraced(path: List<string>, open: bool, remainder: Option<string>, ts: Stream): (r: Result<Pat>)
    ensures r.Ok? ==> Len(r.rest) <= Len(ts)
    decreases Len(ts), 6
  {
    if Peek(ts).RBrace? then Ok(PRecord(path, Nil, open, remainder), Rest(ts))
    else
      match ParseFields(ts)
      case Fail => Fail
      case Ok(fields, rest) =>
        if Peek(rest).RBrace? then Ok(PRecord(path, fields, open, remainder), Rest(rest)) else Fail
  }

  function ParseFields(ts: Stream): (r: Result<List<FieldPat>>)
    ensures r.Ok? ==> Len(r.rest) < Len(ts)
    decreases Len(ts), 5
  {
    match ParseField(ts)
    case Fail => Fail
    case Ok(x, rest) =>
      if Peek(rest).Comma? then
        match ParseFields(Rest(rest))
        case Fail => Fail
        case Ok(more, rest') => Ok(Cons(x, more), rest')
      else Ok(Cons(x, Nil), rest)
  }

  function ParseField(ts: Stream): (r: Result<FieldPat>)
    ensures r.Ok? ==> Len(r.rest) < Len(ts)
    decreases Len(ts), 4
  {
    if !Peek(ts).VarId? then Fail
    else if Peek2(ts).Equals? then
      match ParsePat(Rest(Rest(ts)))
      case Fail => Fail
      case Ok(p, rest) => Ok(FieldPat(Peek(ts).s, p), rest)
    else Ok(FieldPat(Peek(ts).s, PVar(Peek(ts).s)), Rest(ts))
  }

  // ---------------------------------------------------------------- first tokens

  lemma {:induction false} StartsPrint(p: Pat, prec: nat, lead: bool, rest: Stream)
    requires Wf(p)
    ensures StartsAtomPat(Print(p, prec, lead, rest))
    decreases p, 1
  {
    if !(Prec(p) < prec || (lead && NeedsLeadParen(p))) {
      StartsInner(p, lead, rest);
    }
  }

  lemma {:induction false} StartsInner(p: Pat, lead: bool, rest: Stream)
    requires Wf(p)
    ensures StartsAtomPat(Inner(p, lead, rest))
    decreases p, 0
  {
    if p.PCons? {
      StartsPrint(p.hd, PP_APP, lead, Cons(ColonColon, Print(p.tl, PP_PAT, false, rest)));
    } else if p.PAs? {
      StartsPrint(p.pat, PP_ATOM, lead, Cons(As, Cons(VarId(p.name), rest)));
    }
  }

  // ---------------------------------------------------------------- the parser reads what was printed

  /** Tokens that cannot extend a pattern at each level. */
  predicate CoreFollow(t: Token)
  {
    !t.Dot? && !t.LBrace?
  }

  predicate AppFollow(ts: Stream)
  {
    CoreFollow(Peek(ts)) && !Peek(ts).As? && !StartsAtomPat(ts)
  }

  predicate PatFollow(ts: Stream)
  {
    AppFollow(ts) && !Peek(ts).ColonColon?
  }

  /** An atom comes back, and goes on with whatever `as` follows. */
  lemma {:induction false} AtomBack(p: Pat, lead: bool, rest: Stream)
    requires Wf(p) && CoreFollow(Peek(rest))
    ensures ParseAtomPat(Print(p, PP_ATOM, lead, rest)) == ParseTail(Ok(p, rest))
    decreases p, if Prec(p) == PP_ATOM then 5 else 8
  {
    if Prec(p) < PP_ATOM {
      PatBack(p, false, Cons(RParen, rest));
      GroupBack(p, lead, rest);
    } else if p.PAs? {
      var more := Cons(As, Cons(VarId(p.name), rest));
      AtomBack(p.pat, lead, more);
      assert Print(p, PP_ATOM, lead, rest) == Print(p.pat, PP_ATOM, lead, more);
      hide Print, ParseAtomPat, Wf;
      assert ParseTail(Ok(p.pat, more)) == ParseTail(Ok(p, rest));
    } else if lead && NeedsLeadParen(p) {
      NegativeBack(p, rest);
    } else {
      CoreBack(p, lead, rest);
      hide Inner, ParseCore;
    }
  }

  lemma GroupOne(ts: Stream, p: Pat, rest: Stream)
    requires StartsAtomPat(ts) && ParsePat(ts) == Ok(p, Cons(RParen, rest))
    ensures ParseCore(Cons(LParen, ts)) == Ok(p, rest)
  {
    hide ParsePat;
    assert ParseItems(ts) == Ok(Cons(p, Nil), Cons(RParen, rest));
    hide ParseItems;
  }

  lemma GroupBack(p: Pat, lead: bool, rest: Stream)
    requires Wf(p) && Prec(p) < PP_ATOM
    requires var rest' := Cons(RParen, rest); ParsePat(Print(p, PP_PAT, false, rest')) == Ok(p, rest')
    ensures ParseAtomPat(Print(p, PP_ATOM, lead, rest)) == ParseTail(Ok(p, rest))
  {
    var ts := Inner(p, false, Cons(RParen, rest));
    StartsInner(p, false, Cons(RParen, rest));
    assert Print(p, PP_PAT, false, Cons(RParen, rest)) == ts;
    assert Print(p, PP_ATOM, lead, rest) == Cons(LParen, ts);
    hide Inner, Print, ParsePat, StartsAtomPat, Wf;
    GroupOne(ts, p, rest);
    hide ParseCore;
  }

  lemma NegativeBack(p: Pat, rest: Stream)
    requires NeedsLeadParen(p)
    ensures ParseAtomPat(Print(p, PP_ATOM, true, rest)) == ParseTail(Ok(p, rest))
  {
    var end: Stream := Cons(RParen, rest);
    var ts: Stream := Cons(VarSym("-"), Cons(IntLit(p.value), end));
    assert Print(p, PP_ATOM, true, rest) == Cons(LParen, ts);
    assert ParseCore(ts) == Ok(p, end);
    assert ParsePatApp(ts) == ParseTail(Ok(p, end)) == Ok(p, end);
    GroupOne(ts, p, rest);
    hide ParseCore;
  }

  lemma {:induction false} CoreBack(p: Pat, lead: bool, rest: Stream)
    requires Wf(p) && Prec(p) == PP_ATOM && !p.PAs? && CoreFollow(Peek(rest))
    ensures ParseCore(Inner(p, lead, rest)) == Ok(p, rest)
    decreases p, 1
  {
    if p.PCon? {
      BareBack(p, lead, rest);
    } else if p.PRecord? {
      RecordBack(p, lead, rest);
    } else if p.PTuple? {
      TupleBack(p, lead, rest);
    } else if p.PList? {
      ListBack(p, lead, rest);
    }
  }

  lemma BareInner(p: Pat, lead: bool, rest: Stream)
    requires p.PCon? && p.args.Nil?
    ensures Inner(p, lead, rest) == PrintPath(p.path, rest)
  {
    assert PrintArgs(Nil, false, rest) == rest;
  }

  lemma BareBack(p: Pat, lead: bool, rest: Stream)
    requires Wf(p) && p.PCon? && p.args.Nil? && CoreFollow(Peek(rest))
    ensures ParseCore(Inner(p, lead, rest)) == Ok(p, rest)
  {
    PathBack(p.path, rest);
    PathFirst(p.path, rest);
    BareInner(p, lead, rest);
    hide ParsePath, PrintPath, Inner;
  }

  lemma {:induction false} TupleBack(p: Pat, lead: bool, rest: Stream)
    requires Wf(p) && p.PTuple?
    ensures ParseCore(Inner(p, lead, rest)) == Ok(p, rest)
    decreases p, 0
  {
    var end := Cons(RParen, rest);
    ItemsBack(p.items, end);
    StartsItems(p.items, end);
    assert Inner(p, lead, rest) == Cons(LParen, PrintItems(p.items, end));
    hide ParseItems, PrintItems, Inner, Wf;
  }

  lemma {:induction false} ListBack(p: Pat, lead: bool, rest: Stream)
    requires Wf(p) && p.PList?
    ensures ParseCore(Inner(p, lead, rest)) == Ok(p, rest)
    decreases p, 0
  {
    var end := Cons(RBracket, rest);
    NoItems(end);
    if p.items.Cons? {
      ItemsBack(p.items, end);
      StartsItems(p.items, end);
    }
    assert Inner(p, lead, rest) == Cons(LBracket, PrintItems(p.items, end));
    hide ParseItems, PrintItems, Inner, Wf;
  }

  lemma NoItems(rest: Stream)
    ensures PrintItems(Nil, rest) == rest
  {
  }

  lemma StartsItems(items: List<Pat>, rest: Stream)
    requires items.Cons? && WfAll(items)
    ensures StartsAtomPat(PrintItems(items, rest))
  {
    var more := if items.tail == Nil then rest else Cons(Comma, PrintItems(items.tail, rest));
    StartsPrint(items.head, PP_PAT, false, more);
  }

  lemma PathFirst(path: List<string>, rest: Stream)
    requires path.Cons?
    ensures Peek(PrintPath(path, rest)).ConId?
  {
  }

  function PrintInside(p: Pat, rest: Stream): Stream
    requires p.PRecord?
  {
    PrintOpen(p.open, p.remainder, p.fields.Cons?, PrintFields(p.fields, Cons(RBrace, rest)))
  }

  lemma {:induction false} RecordBack(p: Pat, lead: bool, rest: Stream)
    requires Wf(p) && p.PRecord?
    ensures ParseCore(Inner(p, lead, rest)) == Ok(p, rest)
    decreases p, 0, 1
  {
    var ts := Cons(LBrace, PrintInside(p, rest));
    PathBack(p.path, ts);
    PathFirst(p.path, ts);
    InsideBack(p, rest);
    assert Inner(p, lead, rest) == PrintPath(p.path, ts);
    hide ParsePath, PrintPath, ParseRecord, PrintInside, Inner, Wf;
  }

  lemma OpenBack(p: Pat, ts: Stream, rest: Stream)
    requires p.PRecord? && (p.remainder.Some? ==> p.open)
    requires if p.fields.Nil? then ts == Cons(RBrace, rest)
             else Peek(ts).VarId? && ParseFields(ts) == Ok(p.fields, Cons(RBrace, rest))
    ensures ParseRecord(p.path, PrintOpen(p.open, p.remainder, p.fields.Cons?, ts)) == Ok(p, rest)
  {
    hide ParseFields;
  }

  lemma {:induction false} InsideBack(p: Pat, rest: Stream)
    requires Wf(p) && p.PRecord?
    ensures ParseRecord(p.path, PrintInside(p, rest)) == Ok(p, rest)
    decreases p, 0, 0
  {
    var end := Cons(RBrace, rest);
    if p.fields.Cons? {
      FieldsBack(p.fields, end);
      FieldsFirst(p.fields, end);
    } else {
      assert PrintFields(p.fields, end) == end;
    }
    hide PrintFields, ParseFields, PrintOpen, ParseRecord, Wf;
    OpenBack(p, PrintFields(p.fields, end), rest);
  }

  lemma FieldsFirst(fields: List<FieldPat>, rest: Stream)
    requires fields.Cons?
    ensures Peek(PrintFields(fields, rest)).VarId?
  {
  }

  lemma {:induction false} FieldsBack(fields: List<FieldPat>, rest: Stream)
    requires fields.Cons? && WfFields(fields) && PatFollow(rest) && !Peek(rest).Comma? && !Peek(rest).Equals?
    ensures ParseFields(PrintFields(fields, rest)) == Ok(fields, rest)
    decreases fields, 10
  {
    if fields.tail == Nil {
      FieldBack(fields.head, rest);
    } else {
      FieldBack(fields.head, Cons(Comma, PrintFields(fields.tail, rest)));
      FieldsBack(fields.tail, rest);
    }
    hide PrintField, ParseField, Wf, PatFollow;
  }

  lemma {:induction false} FieldBack(x: FieldPat, rest: Stream)
    requires Wf(x.pat) && PatFollow(rest) && !Peek(rest).Equals?
    ensures ParseField(PrintField(x, rest)) == Ok(x, rest)
    decreases x, 10
  {
    PatBack(x.pat, false, rest);
    hide Print, ParsePat, Wf, PatFollow;
  }

  lemma {:induction false} ItemsBack(items: List<Pat>, rest: Stream)
    requires items.Cons? && WfAll(items) && PatFollow(rest) && !Peek(rest).Comma?
    ensures ParseItems(PrintItems(items, rest)) == Ok(items, rest)
    decreases items, 10
  {
    if items.tail == Nil {
      PatBack(items.head, false, rest);
    } else {
      PatBack(items.head, false, Cons(Comma, PrintItems(items.tail, rest)));
      ItemsBack(items.tail, rest);
    }
    hide Print, ParsePat, Wf, PatFollow;
  }

  lemma {:induction false} ArgsBack(args: List<Pat>, guard: bool, rest: Stream)
    requires WfAll(args) && AppFollow(rest)
    ensures ParseArgs(PrintArgs(args, guard, rest)) == Ok(args, rest)
    ensures CoreFollow(Peek(PrintArgs(args, guard, rest))) && !Peek(PrintArgs(args, guard, rest)).As?
    decreases args, 10
  {
    if args.Cons? {
      var more := PrintArgs(args.tail, false, rest);
      ArgsBack(args.tail, false, rest);
      AtomBack(args.head, guard, more);
      StartsPrint(args.head, PP_ATOM, guard, more);
      assert ParseTail(Ok(args.head, more)) == Ok(args.head, more);
    }
    hide Print, ParseAtomPat, Wf;
  }

  /** What follows a constructor path: a record brace, an `as`, or the end of the pattern. */
  lemma {:induction false} AfterPath(p: Pat, lead: bool, rest: Stream)
    requires Wf(p) && Prec(p) == PP_ATOM && CoreFollow(Peek(rest)) && Peek(Print(p, PP_ATOM, lead, rest)).ConId?
    ensures var r := ParsePath(Print(p, PP_ATOM, lead, rest));
            r.Ok? && (Peek(r.rest).LBrace? || Peek(r.rest).As? || r.rest == rest)
    decreases p
  {
    if p.PCon? {
      PathBack(p.path, rest);
      BareInner(p, lead, rest);
    } else if p.PRecord? {
      var ts := Cons(LBrace, PrintInside(p, rest));
      PathBack(p.path, ts);
      assert Print(p, PP_ATOM, lead, rest) == PrintPath(p.path, ts);
      hide Print, PrintInside;
    } else if p.PAs? {
      var more := Cons(As, Cons(VarId(p.name), rest));
      assert Print(p, PP_ATOM, lead, rest) == Print(p.pat, PP_ATOM, lead, more);
      AfterAs(p.pat, lead, more);
      AfterPath(p.pat, lead, more);
      hide Print;
    }
    hide ParsePath, PrintPath, Wf;
  }

  lemma AfterAs(p: Pat, lead: bool, rest: Stream)
    requires Peek(Print(p, PP_ATOM, lead, rest)).ConId?
    ensures Prec(p) == PP_ATOM
  {
  }

  /** Where no argument follows the path, parse_patapp and parse_atompat agree. */
  lemma PatAppIsAtom(ts: Stream)
    requires Peek(ts).ConId? ==>
               ParsePath(ts).Ok? && (Peek(ParsePath(ts).rest).LBrace? || !StartsAtomPat(ParsePath(ts).rest))
    ensures ParsePatApp(ts) == ParseAtomPat(ts)
  {
    hide ParsePath, StartsAtomPat, ParseRecord, ParseTail, ParseItems;
  }

  lemma {:induction false} AppBack(p: Pat, lead: bool, rest: Stream)
    requires Wf(p) && AppFollow(rest)
    ensures ParsePatApp(Print(p, PP_APP, lead, rest)) == Ok(p, rest)
    decreases p, if p.PCons? then 9 else if Prec(p) == PP_APP then 3 else 6
  {
    if Prec(p) == PP_APP {
      var more := PrintArgs(p.args, false, rest);
      ArgsBack(p.args, false, rest);
      StartsPrint(p.args.head, PP_ATOM, false, PrintArgs(p.args.tail, false, rest));
      PathBack(p.path, more);
      PathFirst(p.path, more);
      assert Print(p, PP_APP, lead, rest) == PrintPath(p.path, more);
      assert more == Print(p.args.head, PP_ATOM, false, PrintArgs(p.args.tail, false, rest));
      hide Print, PrintArgs, ParseArgs, PrintPath, ParsePath, Wf, StartsAtomPat;
    } else {
      var ts := Print(p, PP_ATOM, lead, rest);
      assert Print(p, PP_APP, lead, rest) == ts;
      AtomBack(p, lead, rest);
      if Peek(ts).ConId? {
        AfterPath(p, lead, rest);
      }
      assert ParseTail(Ok(p, rest)) == Ok(p, rest);
      hide Print, ParsePath, ParseAtomPat, ParsePatApp, Wf;
      PatAppIsAtom(ts);
    }
  }

  lemma {:induction false} PatBack(p: Pat, lead: bool, rest: Stream)
    requires Wf(p) && PatFollow(rest)
    ensures ParsePat(Print(p, PP_PAT, lead, rest)) == Ok(p, rest)
    decreases p, if p.PCons? then 2 else 7
  {
    if p.PCons? {
      var more := Cons(ColonColon, Print(p.tl, PP_PAT, false, rest));
      AppBack(p.hd, lead, more);
      PatBack(p.tl, false, rest);
      assert Print(p, PP_PAT, lead, rest) == Print(p.hd, PP_APP, lead, more);
    } else {
      AppBack(p, lead, rest);
      assert Print(p, PP_PAT, lead, rest) == Print(p, PP_APP, lead, rest);
    }
    hide Print, ParsePatApp, Wf, AppFollow;
  }
}
