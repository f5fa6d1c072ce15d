/**
  What the parser of grammar/c/wok_parse.c:650-1345 accepts, whatever the text: the stretch it takes is well
  bracketed, keyword brackets included, and the tree holds the very names and literals written there.
*/
module Accepted {
  import opened Tokens
  import T = TypeLadder
  import P = PatternLadder
  import E = ExprLadder

  // ---------------------------------------------------------------- brackets

  /** What must follow an opener, innermost first; an `if` waits for its `then` and its `else`. */
  function Owed(arrows: bool, t: Token): List<Token>
  {
    match t
    case LParen => Cons(RParen, Nil)
    case LBracket => Cons(RBracket, Nil)
    case LBrace => Cons(RBrace, Nil)
    case If => Cons(Then, Cons(Else, Nil))
    case Let => Cons(In, Nil)
    case Lambda => if arrows then Cons(Arrow, Nil) else Nil
    case _ => Nil
  }

  /** In an expression an arrow ends a lambda's parameters; in a type it ends nothing. */
  predicate Closes(arrows: bool, t: Token)
  {
    t.RParen? || t.RBracket? || t.RBrace? || t.Then? || t.Else? || t.In? || (arrows && t.Arrow?)
  }

  function Stacked(owed: List<Token>, stack: List<Token>): List<Token>
  {
    if owed.Nil? then stack else Cons(owed.head, Stacked(owed.tail, stack))
  }

  /** Reads a text with the closers still owed: each closer must be the one owed next. */
  function Scan(arrows: bool, stack: List<Token>, ts: Stream): Option<List<Token>>
    decreases ts
  {
    if ts.Nil? then Some(stack)
    else if Closes(arrows, ts.head) then
      if stack.Cons? && stack.head == ts.head then Scan(arrows, stack.tail, ts.tail) else None
    else Scan(arrows, Stacked(Owed(arrows, ts.head), stack), ts.tail)
  }

  // ---------------------------------------------------------------- words

  predicate IsWord(t: Token)
  {
    t.VarId? || t.ConId? || t.IntLit? || t.StrLit? || t.CharLit?
  }

  function WordOf(t: Token): set<Token>
  {
    if IsWord(t) then {t} else {}
  }

  function WordsOf(ts: Stream): set<Token>
  {
    if ts.Nil? then {} else WordOf(ts.head) + WordsOf(ts.tail)
  }

  /** From `ts` to `rest` everything opened is closed, and these are the words. */
  ghost predicate Took(arrows: bool, ts: Stream, words: set<Token>, rest: Stream)
  {
    && WordsOf(ts) == words + WordsOf(rest)
    && forall stack: List<Token> :: Scan(arrows, stack, ts) == Scan(arrows, stack, rest)
  }

  /** The same inside an open bracket, up to the closer that is owed. */
  ghost predicate TookOwing(arrows: bool, ts: Stream, words: set<Token>, owed: List<Token>, rest: Stream)
  {
    && WordsOf(ts) == words + WordsOf(rest)
    && forall stack: List<Token> :: Scan(arrows, Stacked(owed, stack), ts) == Scan(arrows, stack, rest)
  }

  lemma TookNothing(arrows: bool, ts: Stream)
    ensures Took(arrows, ts, {}, ts)
  {
  }

  lemma TookMore(arrows: bool, ts: Stream, a: set<Token>, mid: Stream, b: set<Token>, rest: Stream)
    requires Took(arrows, ts, a, mid) && Took(arrows, mid, b, rest)
    ensures Took(arrows, ts, a + b, rest)
  {
  }

  /** A token that neither opens nor closes. */
  lemma TookToken(arrows: bool, ts: Stream)
    requires ts.Cons? && !Closes(arrows, ts.head) && Owed(arrows, ts.head) == Nil
    ensures Took(arrows, ts, WordOf(ts.head), Rest(ts))
  {
  }

  lemma TookThen(arrows: bool, ts: Stream, words: set<Token>, rest: Stream)
    requires ts.Cons? && !Closes(arrows, ts.head) && Owed(arrows, ts.head) == Nil && Took(arrows, Rest(ts), words, rest)
    ensures Took(arrows, ts, WordOf(ts.head) + words, rest)
  {
    TookToken(arrows, ts);
    TookMore(arrows, ts, WordOf(ts.head), Rest(ts), words, rest);
  }

  /** What stands before a closer, and the closer. */
  lemma TookCloser(arrows: bool, ts: Stream, words: set<Token>, mid: Stream)
    requires Took(arrows, ts, words, mid) && mid.Cons? && Closes(arrows, mid.head)
    ensures TookOwing(arrows, ts, words, Cons(mid.head, Nil), Rest(mid))
  {
    var owed := Cons(mid.head, Nil);
    forall stack: List<Token>
      ensures Scan(arrows, Stacked(owed, stack), ts) == Scan(arrows, stack, Rest(mid))
    {
      assert Stacked(owed, stack) == Cons(mid.head, Stacked(Nil, stack)) == Cons(mid.head, stack);
      assert Scan(arrows, Cons(mid.head, stack), ts) == Scan(arrows, Cons(mid.head, stack), mid);
    }
  }

  /** An opener, what it encloses, and its closer. */
  lemma TookOpener(arrows: bool, ts: Stream, words: set<Token>, rest: Stream)
    requires ts.Cons? && !Closes(arrows, ts.head) && !IsWord(ts.head)
    requires TookOwing(arrows, Rest(ts), words, Owed(arrows, ts.head), rest)
    ensures Took(arrows, ts, words, rest)
  {
  }

  lemma TookBracket(arrows: bool, ts: Stream, words: set<Token>, mid: Stream)
    requires ts.Cons? && !Closes(arrows, ts.head) && !IsWord(ts.head) && mid.Cons? && Closes(arrows, mid.head)
    requires Owed(arrows, ts.head) == Cons(mid.head, Nil) && Took(arrows, Rest(ts), words, mid)
    ensures Took(arrows, ts, words, Rest(mid))
  {
    TookCloser(arrows, Rest(ts), words, mid);
    TookOpener(arrows, ts, words, Rest(mid));
  }

  // ---------------------------------------------------------------- types

  function PathWords(path: List<string>): set<Token>
  {
    if path.Nil? then {} else {ConId(path.head)} + PathWords(path.tail)
  }

  lemma {:induction false} PathTaken(arrows: bool, ts: Stream)
    requires ParsePath(ts).Ok?
    ensures Took(arrows, ts, PathWords(ParsePath(ts).value), ParsePath(ts).rest)
    decreases Len(ts)
  {
    hide Took;
    TookToken(arrows, ts);
    if Peek2(ts).Dot? && Peek3(ts).ConId? {
      var more := Rest(Rest(ts));
      PathTaken(arrows, more);
      TookThen(arrows, Rest(ts), PathWords(ParsePath(more).value), ParsePath(more).rest);
      TookMore(arrows, ts, WordOf(ts.head), Rest(ts), WordOf(Dot) + PathWords(ParsePath(more).value),
               ParsePath(more).rest);
      assert PathWords(ParsePath(ts).value) == WordOf(ts.head) + (WordOf(Dot) + PathWords(ParsePath(more).value));
    } else {
      assert PathWords(ParsePath(ts).value) == WordOf(ts.head);
    }
  }

  function TypeWords(t: T.Ty): set<Token>
    decreases t, 0
  {
    match t
    case TErr => {}
    case TVar(x) => {VarId(x)}
    case TCon(path) => PathWords(path)
    case TApp(fn, arg) => TypeWords(fn) + TypeWords(arg)
    case TFun(from, to) => TypeWords(from) + TypeWords(to)
    case TQual(ctx, body) => TypeWords(ctx) + TypeWords(body)
    case TWith(body, row) => TypeWords(body) + RowWords(row)
    case TList(elem) => TypeWords(elem)
    case TTuple(items) => ItemWords(items)
    case TUnit => {}
    case TRowArg(x) => {VarId("row"), VarId(x)}
    case TTransfer(m, body) => {VarId(T.Word(m))} + TypeWords(body)
  }

  function ItemWords(items: List<T.Ty>): set<Token>
    decreases items, 1
  {
    if items.Nil? then {} else TypeWords(items.head) + ItemWords(items.tail)
  }

  function EntryWords(e: T.Row): set<Token>
    decreases e, 1
  {
    match e
    case Role(x, t) => {VarId(x)} + TypeWords(t)
    case EffVar(x) => {VarId("eff"), VarId(x)}
    case Slot(t) => TypeWords(t)
  }

  function RowWords(row: List<T.Row>): set<Token>
    decreases row, 1
  {
    if row.Nil? then {} else EntryWords(row.head) + RowWords(row.tail)
  }

  /** Any type the parser accepts, foreign or not. */
  lemma {:induction false} TypeTaken(f: bool, ts: Stream)
    requires T.ParseType(f, ts).Ok?
    ensures Took(false, ts, TypeWords(T.ParseType(f, ts).value), T.ParseType(f, ts).rest)
    decreases Len(ts), 4
  {
    hide Took, T.ParseArrow, T.ParseRow;
    ArrowTaken(f, ts);
    var mid := T.ParseArrow(f, ts).rest;
    var lhs := TypeWords(T.ParseArrow(f, ts).value);
    if Peek(mid).FatArrow? {
      var r := T.ParseType(f, Rest(mid));
      TypeTaken(f, Rest(mid));
      TookThen(false, mid, TypeWords(r.value), r.rest);
      TookMore(false, ts, lhs, mid, WordOf(FatArrow) + TypeWords(r.value), r.rest);
      assert lhs + (WordOf(FatArrow) + TypeWords(r.value)) == lhs + TypeWords(r.value);
    } else if Peek(mid).With? {
      var r := T.ParseRow(f, Rest(mid));
      RowTaken(f, Rest(mid));
      TookThen(false, mid, RowWords(r.value), r.rest);
      TookMore(false, ts, lhs, mid, WordOf(With) + RowWords(r.value), r.rest);
      assert lhs + (WordOf(With) + RowWords(r.value)) == lhs + RowWords(r.value);
    }
  }

  lemma {:induction false} ArrowTaken(f: bool, ts: Stream)
    requires T.ParseArrow(f, ts).Ok?
    ensures Took(false, ts, TypeWords(T.ParseArrow(f, ts).value), T.ParseArrow(f, ts).rest)
    decreases Len(ts), 3
  {
    hide Took, T.ParseTypeApp;
    TypeAppTaken(f, ts);
    var mid := T.ParseTypeApp(f, ts).rest;
    var from := TypeWords(T.ParseTypeApp(f, ts).value);
    if Peek(mid).Arrow? {
      var r := T.ParseArrow(f, Rest(mid));
      ArrowTaken(f, Rest(mid));
      TookThen(false, mid, TypeWords(r.value), r.rest);
      TookMore(false, ts, from, mid, WordOf(Arrow) + TypeWords(r.value), r.rest);
      assert from + (WordOf(Arrow) + TypeWords(r.value)) == from + TypeWords(r.value);
    }
  }

  lemma {:induction false} TypeAppTaken(f: bool, ts: Stream)
    requires T.ParseTypeApp(f, ts).Ok?
    ensures Took(false, ts, TypeWords(T.ParseTypeApp(f, ts).value), T.ParseTypeApp(f, ts).rest)
    decreases Len(ts), 2
  {
    hide Took, T.ParseSpine;
    var mode := T.Transfer(f, Peek(ts));
    if mode.Some? {
      var r := T.ParseSpine(f, Rest(ts));
      SpineTaken(f, Rest(ts));
      TookThen(false, ts, TypeWords(r.value), r.rest);
      assert WordOf(ts.head) == {VarId(T.Word(mode.value))};
    } else {
      SpineTaken(f, ts);
    }
  }

  lemma {:induction false} SpineTaken(f: bool, ts: Stream)
    requires T.ParseSpine(f, ts).Ok?
    ensures Took(false, ts, TypeWords(T.ParseSpine(f, ts).value), T.ParseSpine(f, ts).rest)
    decreases Len(ts), 1
  {
    hide Took, T.ParseAtom, T.ParseArgs;
    var atom := T.ParseAtom(f, ts);
    TypeAtomTaken(f, ts);
    TypeArgsTaken(f, atom.value, ts, atom.rest);
  }

  lemma {:induction false} TypeArgsTaken(f: bool, fn: T.Ty, from: Stream, ts: Stream)
    requires T.ParseArgs(f, fn, ts).Ok? && Took(false, from, TypeWords(fn), ts)
    ensures Took(false, from, TypeWords(T.ParseArgs(f, fn, ts).value), T.ParseArgs(f, fn, ts).rest)
    decreases Len(ts), 1
  {
    hide Took, T.ParseAtom;
    if T.StartsAtom(Peek(ts)) {
      var arg := T.ParseAtom(f, ts);
      TypeAtomTaken(f, ts);
      TookMore(false, from, TypeWords(fn), ts, TypeWords(arg.value), arg.rest);
      TypeArgsTaken(f, T.TApp(fn, arg.value), from, arg.rest);
    }
  }

  lemma {:induction false} TypeAtomTaken(f: bool, ts: Stream)
    requires T.ParseAtom(f, ts).Ok?
    ensures Took(false, ts, TypeWords(T.ParseAtom(f, ts).value), T.ParseAtom(f, ts).rest)
    decreases Len(ts), 0
  {
    hide Took, T.ParseType, T.ParseGroup;
    if Peek(ts).ConId? {
      PathTaken(false, ts);
    } else if Peek(ts).VarId? {
      TookToken(false, ts);
    } else if Peek(ts).LBracket? {
      var r := T.ParseType(f, Rest(ts));
      TypeTaken(f, Rest(ts));
      TookBracket(false, ts, TypeWords(r.value), r.rest);
    } else {
      TypeGroupTaken(f, ts);
    }
  }

  lemma {:induction false} TypeGroupTaken(f: bool, ts: Stream)
    requires Peek(ts).LParen? && T.ParseGroup(f, Rest(ts)).Ok?
    ensures Took(false, ts, TypeWords(T.ParseGroup(f, Rest(ts)).value), T.ParseGroup(f, Rest(ts)).rest)
    decreases Len(Rest(ts)), 6
  {
    hide Took, T.ParseItems;
    var open := Rest(ts);
    if Peek(open).RParen? {
      TookNothing(false, open);
      TookBracket(false, ts, {}, open);
    } else if Peek(open) == VarId("row") && Peek2(open).VarId? && Peek3(open).RParen? {
      TookToken(false, Rest(open));
      TookThen(false, open, WordOf(Peek2(open)), Rest(Rest(open)));
      TookBracket(false, ts, WordOf(Peek(open)) + WordOf(Peek2(open)), Rest(Rest(open)));
      assert WordOf(Peek(open)) + WordOf(Peek2(open)) == {VarId("row"), VarId(Peek2(open).s)};
    } else {
      var r := T.ParseItems(f, open);
      TypeItemsTaken(f, open);
      TookBracket(false, ts, ItemWords(r.value), r.rest);
      assert ItemWords(Nil) == {};
      assert r.value.tail == Nil ==> ItemWords(r.value) == TypeWords(r.value.head);
    }
  }

  lemma {:induction false} TypeItemsTaken(f: bool, ts: Stream)
    requires T.ParseItems(f, ts).Ok?
    ensures Took(false, ts, ItemWords(T.ParseItems(f, ts).value), T.ParseItems(f, ts).rest)
    decreases Len(ts), 5
  {
    hide Took, T.ParseType;
    var r := T.ParseType(f, ts);
    TypeTaken(f, ts);
    var one := TypeWords(r.value);
    if Peek(r.rest).Comma? {
      var more := T.ParseItems(f, Rest(r.rest));
      TypeItemsTaken(f, Rest(r.rest));
      TookThen(false, r.rest, ItemWords(more.value), more.rest);
      TookMore(false, ts, one, r.rest, WordOf(Comma) + ItemWords(more.value), more.rest);
      assert one + (WordOf(Comma) + ItemWords(more.value)) == one + ItemWords(more.value);
    } else {
      assert ItemWords(Cons(r.value, Nil)) == one;
    }
  }

  lemma {:induction false} RowTaken(f: bool, ts: Stream)
    requires T.ParseRow(f, ts).Ok?
    ensures Took(false, ts, RowWords(T.ParseRow(f, ts).value), T.ParseRow(f, ts).rest)
    decreases Len(ts), 4
  {
    hide Took, T.ParseEntry;
    var r := T.ParseEntry(f, ts);
    EntryTaken(f, ts);
    var one := EntryWords(r.value);
    if Peek(r.rest) == VarSym("+") {
      var more := T.ParseRow(f, Rest(r.rest));
      RowTaken(f, Rest(r.rest));
      TookThen(false, r.rest, RowWords(more.value), more.rest);
      TookMore(false, ts, one, r.rest, WordOf(r.rest.head) + RowWords(more.value), more.rest);
      assert one + (WordOf(r.rest.head) + RowWords(more.value)) == one + RowWords(more.value);
    } else {
      assert RowWords(Cons(r.value, Nil)) == one;
    }
  }

  lemma {:induction false} EntryTaken(f: bool, ts: Stream)
    requires T.ParseEntry(f, ts).Ok?
    ensures Took(false, ts, EntryWords(T.ParseEntry(f, ts).value), T.ParseEntry(f, ts).rest)
    decreases Len(ts), 3
  {
    hide Took, T.ParseTypeApp;
    if Peek(ts).LParen? && Peek2(ts).VarId? && Peek3(ts).Colon? {
      var name, colon := Rest(ts), Rest(Rest(ts));
      var r := T.ParseTypeApp(f, Rest(colon));
      TypeAppTaken(f, Rest(colon));
      TookThen(false, colon, TypeWords(r.value), r.rest);
      TookThen(false, name, WordOf(Colon) + TypeWords(r.value), r.rest);
      TookBracket(false, ts, WordOf(name.head) + (WordOf(Colon) + TypeWords(r.value)), r.rest);
      assert WordOf(name.head) + (WordOf(Colon) + TypeWords(r.value)) == {VarId(name.head.s)} + TypeWords(r.value);
    } else if Peek(ts) == VarId("eff") && Peek2(ts).VarId? {
      TookToken(false, Rest(ts));
      TookThen(false, ts, WordOf(Peek2(ts)), Rest(Rest(ts)));
      assert WordOf(ts.head) + WordOf(Peek2(ts)) == {VarId("eff"), VarId(Peek2(ts).s)};
    } else {
      TypeAppTaken(f, ts);
    }
  }

  // ---------------------------------------------------------------- patterns

  function PatWords(p: P.Pat): set<Token>
    decreases p, 0
  {
    match p
    case PErr => {}
    case PVar(x) => {VarId(x)}
    case PWild => {}
    case PInt(v, _) => {IntLit(v)}
    case PStr(s) => {StrLit(s)}
    case PChar(s) => {CharLit(s)}
    case PCon(path, args) => PathWords(path) + PatsWords(args)
    case PCons(h, t) => PatWords(h) + PatWords(t)
    case PTuple(items) => PatsWords(items)
    case PList(items) => PatsWords(items)
    case PUnit => {}
    case PAs(q, x) => PatWords(q) + {VarId(x)}
    case PRecord(path, fields, _, remainder) =>
      PathWords(path) + (if remainder.Some? then {VarId(remainder.value)} else {}) + FieldPatWords(fields)
  }

  function PatsWords(ps: List<P.Pat>): set<Token>
    decreases ps, 1
  {
    if ps.Nil? then {} else PatWords(ps.head) + PatsWords(ps.tail)
  }

  function FieldPatWords(fs: List<P.FieldPat>): set<Token>
    decreases fs, 1
  {
    if fs.Nil? then {} else {VarId(fs.head.name)} + PatWords(fs.head.pat) + FieldPatWords(fs.tail)
  }

  /** Any pattern the parser accepts. */
  lemma {:induction false} PatTaken(a: bool, ts: Stream)
    requires P.ParsePat(ts).Ok?
    ensures Took(a, ts, PatWords(P.ParsePat(ts).value), P.ParsePat(ts).rest)
    decreases Len(ts), 3
  {
    hide Took, P.ParsePatApp;
    PatAppTaken(a, ts);
    var h := P.ParsePatApp(ts);
    if Peek(h.rest).ColonColon? {
      var r := P.ParsePat(Rest(h.rest));
      PatTaken(a, Rest(h.rest));
      TookThen(a, h.rest, PatWords(r.value), r.rest);
      TookMore(a, ts, PatWords(h.value), h.rest, WordOf(ColonColon) + PatWords(r.value), r.rest);
      assert PatWords(h.value) + (WordOf(ColonColon) + PatWords(r.value)) == PatWords(h.value) + PatWords(r.value);
    }
  }

  lemma {:induction false} PatAppTaken(a: bool, ts: Stream)
    requires P.ParsePatApp(ts).Ok?
    ensures Took(a, ts, PatWords(P.ParsePatApp(ts).value), P.ParsePatApp(ts).rest)
    decreases Len(ts), 2
  {
    hide Took, P.ParseAtomPat, P.ParseRecord, P.ParseArgs, P.ParseTail, ParsePath;
    if !Peek(ts).ConId? {
      AtomPatTaken(a, ts);
    } else {
      var path := ParsePath(ts);
      PathTaken(a, ts);
      if Peek(path.rest).LBrace? {
        TailKeeps(P.ParseRecord(path.value, Rest(path.rest)));
        RecordPatTaken(a, ts, path.value, path.rest);
        TailTaken(a, ts, P.ParseRecord(path.value, Rest(path.rest)));
      } else if !P.StartsAtomPat(path.rest) {
        assert PatWords(P.PCon(path.value, Nil)) == PathWords(path.value);
        TailTaken(a, ts, Ok(P.PCon(path.value, Nil), path.rest));
      } else {
        var args := P.ParseArgs(path.rest);
        PatArgsTaken(a, path.rest);
        TookMore(a, ts, PathWords(path.value), path.rest, PatsWords(args.value), args.rest);
      }
    }
  }

  lemma {:induction false} PatArgsTaken(a: bool, ts: Stream)
    requires P.ParseArgs(ts).Ok?
    ensures Took(a, ts, PatsWords(P.ParseArgs(ts).value), P.ParseArgs(ts).rest)
    decreases Len(ts), 2
  {
    hide Took, P.ParseAtomPat;
    if P.StartsAtomPat(ts) {
      var p := P.ParseAtomPat(ts);
      AtomPatTaken(a, ts);
      var more := P.ParseArgs(p.rest);
      PatArgsTaken(a, p.rest);
      TookMore(a, ts, PatWords(p.value), p.rest, PatsWords(more.value), more.rest);
    } else {
      TookNothing(a, ts);
    }
  }

  lemma TailKeeps(r: Result<P.Pat>)
    ensures P.ParseTail(r).Ok? ==> r.Ok?
  {
  }

  lemma {:induction false} TailTaken(a: bool, from: Stream, r: Result<P.Pat>)
    requires r.Ok? && P.ParseTail(r).Ok? && Took(a, from, PatWords(r.value), r.rest)
    ensures Took(a, from, PatWords(P.ParseTail(r).value), P.ParseTail(r).rest)
    decreases Len(r.rest)
  {
    hide Took;
    if Peek(r.rest).As? {
      var name := Rest(r.rest);
      TookToken(a, name);
      TookThen(a, r.rest, WordOf(name.head), Rest(name));
      TookMore(a, from, PatWords(r.value), r.rest, WordOf(As) + WordOf(name.head), Rest(name));
      var q := P.PAs(r.value, name.head.s);
      assert PatWords(r.value) + (WordOf(As) + WordOf(name.head)) == PatWords(q);
      TailTaken(a, from, Ok(q, Rest(name)));
    }
  }

  lemma {:induction false} AtomPatTaken(a: bool, ts: Stream)
    requires P.ParseAtomPat(ts).Ok?
    ensures Took(a, ts, PatWords(P.ParseAtomPat(ts).value), P.ParseAtomPat(ts).rest)
    decreases Len(ts), 1
  {
    hide Took, P.ParseCore, P.ParseTail;
    TailKeeps(P.ParseCore(ts));
    CorePatTaken(a, ts);
    TailTaken(a, ts, P.ParseCore(ts));
  }

  lemma {:induction false} CorePatTaken(a: bool, ts: Stream)
    requires P.ParseCore(ts).Ok?
    ensures Took(a, ts, PatWords(P.ParseCore(ts).value), P.ParseCore(ts).rest)
    decreases Len(ts), 0
  {
    hide Took, P.ParseParens, P.ParseBrackets, P.ParseRecord, ParsePath;
    if Peek(ts).ConId? {
      var path := ParsePath(ts);
      PathTaken(a, ts);
      if Peek(path.rest).LBrace? {
        RecordPatTaken(a, ts, path.value, path.rest);
      } else {
        assert PatWords(P.PCon(path.value, Nil)) == PathWords(path.value);
      }
    } else if Peek(ts).LParen? {
      ParensPatTaken(a, ts);
    } else if Peek(ts).LBracket? {
      BracketsPatTaken(a, ts);
    } else {
      TookToken(a, ts);
      if Peek(ts).VarSym? {
        TookToken(a, Rest(ts));
        TookThen(a, ts, WordOf(Peek2(ts)), Rest(Rest(ts)));
        assert WordOf(ts.head) + WordOf(Peek2(ts)) == {IntLit(Peek2(ts).v)};
      }
    }
  }

  lemma {:induction false} ParensPatTaken(a: bool, ts: Stream)
    requires Peek(ts).LParen? && P.ParseParens(Rest(ts)).Ok?
    ensures Took(a, ts, PatWords(P.ParseParens(Rest(ts)).value), P.ParseParens(Rest(ts)).rest)
    decreases Len(Rest(ts)), 5
  {
    hide Took, P.ParseItems;
    if Peek(Rest(ts)).RParen? {
      TookNothing(a, Rest(ts));
      TookBracket(a, ts, {}, Rest(ts));
    } else {
      var r := P.ParseItems(Rest(ts));
      PatItemsTaken(a, Rest(ts));
      TookBracket(a, ts, PatsWords(r.value), r.rest);
      assert PatsWords(Nil) == {};
      assert r.value.tail == Nil ==> PatsWords(r.value) == PatWords(r.value.head);
    }
  }

  lemma {:induction false} BracketsPatTaken(a: bool, ts: Stream)
    requires Peek(ts).LBracket? && P.ParseBrackets(Rest(ts)).Ok?
    ensures Took(a, ts, PatWords(P.ParseBrackets(Rest(ts)).value), P.ParseBrackets(Rest(ts)).rest)
    decreases Len(Rest(ts)), 5
  {
    hide Took, P.ParseItems;
    if Peek(Rest(ts)).RBracket? {
      TookNothing(a, Rest(ts));
      TookBracket(a, ts, {}, Rest(ts));
      assert PatsWords(Nil) == {};
    } else {
      var r := P.ParseItems(Rest(ts));
      PatItemsTaken(a, Rest(ts));
      TookBracket(a, ts, PatsWords(r.value), r.rest);
    }
  }

  lemma {:induction false} PatItemsTaken(a: bool, ts: Stream)
    requires P.ParseItems(ts).Ok?
    ensures Took(a, ts, PatsWords(P.ParseItems(ts).value), P.ParseItems(ts).rest)
    decreases Len(ts), 4
  {
    hide Took, P.ParsePat;
    var r := P.ParsePat(ts);
    PatTaken(a, ts);
    var one := PatWords(r.value);
    if Peek(r.rest).Comma? {
      var more := P.ParseItems(Rest(r.rest));
      PatItemsTaken(a, Rest(r.rest));
      TookThen(a, r.rest, PatsWords(more.value), more.rest);
      TookMore(a, ts, one, r.rest, WordOf(Comma) + PatsWords(more.value), more.rest);
      assert one + (WordOf(Comma) + PatsWords(more.value)) == one + PatsWords(more.value);
    } else {
      assert PatsWords(Cons(r.value, Nil)) == one;
    }
  }

  /** A record, after its path. */
  lemma {:induction false} RecordPatTaken(a: bool, from: Stream, path: List<string>, ts: Stream)
    requires Took(a, from, PathWords(path), ts) && Peek(ts).LBrace? && P.ParseRecord(path, Rest(ts)).Ok?
    ensures Took(a, from, PatWords(P.ParseRecord(path, Rest(ts)).value), P.ParseRecord(path, Rest(ts)).rest)
    decreases Len(Rest(ts)), 7
  {
    hide Took, P.ParseBraced;
    var inside := Rest(ts);
    var r := P.ParseRecord(path, inside);
    var remainder, start, words := DotsTaken(a, path, inside);
    BracedPatTaken(a, path, Peek(inside).DotDot?, remainder, start);
    var fields := FieldPatWords(r.value.fields);
    var closer := BracedRest(path, Peek(inside).DotDot?, remainder, start);
    TookMore(a, inside, words, start, fields, closer);
    TookBracket(a, ts, words + fields, closer);
    TookMore(a, from, PathWords(path), ts, words + fields, Rest(closer));
    assert PatWords(r.value) == PathWords(path) + (words + fields);
  }

  lemma DotsTaken(a: bool, path: List<string>, ts: Stream)
    returns (remainder: Option<string>, start: Stream, words: set<Token>)
    ensures P.ParseRecord(path, ts) == P.ParseBraced(path, Peek(ts).DotDot?, remainder, start)
    ensures Took(a, ts, words, start) && Len(start) <= Len(ts)
    ensures words == if remainder.Some? then {VarId(remainder.value)} else {}
  {
    hide Took, P.ParseBraced;
    var open := Peek(ts).DotDot?;
    var dots := if open then Rest(ts) else ts;
    remainder := if open && Peek(dots).VarId? then Some(Peek(dots).s) else None;
    words := if remainder.Some? then {VarId(remainder.value)} else {};
    var name := if remainder.Some? then Rest(dots) else dots;
    start := if open && Peek(name).Comma? then Rest(name) else name;
    TookNothing(a, start);
    if open && Peek(name).Comma? {
      TookThen(a, name, {}, start);
      assert WordOf(Comma) + {} == {};
    }
    if remainder.Some? {
      TookThen(a, dots, {}, start);
      assert WordOf(dots.head) + {} == words;
    }
    if open {
      TookThen(a, ts, words, start);
      assert WordOf(DotDot) + words == words;
    }
  }

  /** Where the `}` of a record stands. */
  ghost function BracedRest(path: List<string>, open: bool, remainder: Option<string>, ts: Stream): Stream
  {
    if Peek(ts).RBrace? then ts else if P.ParseFields(ts).Ok? then P.ParseFields(ts).rest else ts
  }

  lemma {:induction false} BracedPatTaken(a: bool, path: List<string>, open: bool, remainder: Option<string>,
                                          ts: Stream)
    requires P.ParseBraced(path, open, remainder, ts).Ok?
    ensures var r, closer := P.ParseBraced(path, open, remainder, ts), BracedRest(path, open, remainder, ts);
            && r.value.PRecord? && r.value.path == path && r.value.remainder == remainder
            && Peek(closer).RBrace? && r.rest == Rest(closer)
            && Took(a, ts, FieldPatWords(r.value.fields), closer)
    decreases Len(ts), 6
  {
    hide Took, P.ParseFields;
    if Peek(ts).RBrace? {
      TookNothing(a, ts);
      assert FieldPatWords(Nil) == {};
    } else {
      FieldPatsTaken(a, ts);
    }
  }

  lemma {:induction false} FieldPatsTaken(a: bool, ts: Stream)
    requires P.ParseFields(ts).Ok?
    ensures Took(a, ts, FieldPatWords(P.ParseFields(ts).value), P.ParseFields(ts).rest)
    decreases Len(ts), 5
  {
    hide Took, P.ParseField;
    var r := P.ParseField(ts);
    FieldPatTaken(a, ts);
    var one := {VarId(r.value.name)} + PatWords(r.value.pat);
    if Peek(r.rest).Comma? {
      var more := P.ParseFields(Rest(r.rest));
      FieldPatsTaken(a, Rest(r.rest));
      TookThen(a, r.rest, FieldPatWords(more.value), more.rest);
      TookMore(a, ts, one, r.rest, WordOf(Comma) + FieldPatWords(more.value), more.rest);
      assert one + (WordOf(Comma) + FieldPatWords(more.value)) == one + FieldPatWords(more.value);
    } else {
      assert FieldPatWords(Cons(r.value, Nil)) == one;
    }
  }

  lemma {:induction false} FieldPatTaken(a: bool, ts: Stream)
    requires P.ParseField(ts).Ok?
    ensures var r := P.ParseField(ts); Took(a, ts, {VarId(r.value.name)} + PatWords(r.value.pat), r.rest)
    decreases Len(ts), 4
  {
    hide Took, P.ParsePat;
    if Peek2(ts).Equals? {
      var r := P.ParsePat(Rest(Rest(ts)));
      PatTaken(a, Rest(Rest(ts)));
      TookThen(a, Rest(ts), PatWords(r.value), r.rest);
      TookThen(a, ts, WordOf(Equals) + PatWords(r.value), r.rest);
      assert WordOf(ts.head) + (WordOf(Equals) + PatWords(r.value)) == {VarId(ts.head.s)} + PatWords(r.value);
    } else {
      TookToken(a, ts);
      assert {VarId(ts.head.s)} + PatWords(P.PVar(ts.head.s)) == WordOf(ts.head);
    }
  }

  // ---------------------------------------------------------------- expressions

  function ExprWords(e: E.Expr): set<Token>
    decreases e, 0
  {
    match e
    case EErr => {}
    case EVar(x) => {VarId(x)}
    case ECon(x) => {ConId(x)}
    case EInt(v) => {IntLit(v)}
    case EStr(s) => {StrLit(s)}
    case EChar(s) => {CharLit(s)}
    case EUnit => {}
    case EOpRef(_) => {}
    case EApp(fn, arg) => ExprWords(fn) + ExprWords(arg)
    case EChain(head, ops) => ExprWords(head) + OpsWords(ops)
    case EDot(recv, x, upper) => ExprWords(recv) + {E.NameToken(upper, x)}
    case ENeg(body) => ExprWords(body)
    case EList(items) => ExprsWords(items)
    case ETuple(items) => ExprsWords(items)
    case ERecord(path, spread, fields) =>
      ExprWords(path) + (if spread.Some? then ExprWords(spread.value) else {}) + FieldWords(fields)
    case ELambda(params, body) => PatsWords(params) + ExprWords(body)
    case EIf(c, t, n) => ExprWords(c) + ExprWords(t) + ExprWords(n)
    case ELetIn(bind, body) => LhsWords(bind.lhs) + ExprWords(bind.body) + ExprWords(body)
    case EAssign(target, value) => ExprWords(target) + ExprWords(value)
  }

  function LhsWords(l: E.Lhs): set<Token>
  {
    match l
    case LPrefix(x, args) => {VarId(x)} + PatsWords(args)
    case LPat(p) => PatWords(p)
  }

  function OpsWords(ops: List<E.ChainOp>): set<Token>
    decreases ops, 1
  {
    if ops.Nil? then {}
    else (if ops.head.backtick then {VarId(ops.head.op)} else {}) + ExprWords(ops.head.rhs) + OpsWords(ops.tail)
  }

  function ExprsWords(es: List<E.Expr>): set<Token>
    decreases es, 1
  {
    if es.Nil? then {} else ExprWords(es.head) + ExprsWords(es.tail)
  }

  function FieldWords(fs: List<E.Field>): set<Token>
    decreases fs, 1
  {
    if fs.Nil? then {} else {VarId(fs.head.name)} + ExprWords(fs.head.value) + FieldWords(fs.tail)
  }

  /** An opener, what it encloses, its closer, and what follows. */
  lemma TookPair(ts: Stream, inner: set<Token>, mid: Stream, outer: set<Token>, rest: Stream)
    requires ts.Cons? && !Closes(true, ts.head) && !IsWord(ts.head) && mid.Cons? && Closes(true, mid.head)
    requires Owed(true, ts.head) == Cons(mid.head, Nil)
    requires Took(true, Rest(ts), inner, mid) && Took(true, Rest(mid), outer, rest)
    ensures Took(true, ts, inner + outer, rest)
  {
    hide Took;
    TookBracket(true, ts, inner, mid);
    TookMore(true, ts, inner, Rest(mid), outer, rest);
  }

  lemma TookIf(ts: Stream, c: set<Token>, thenAt: Stream, t: set<Token>, elseAt: Stream)
    requires Peek(ts).If? && Peek(thenAt).Then? && Peek(elseAt).Else?
    requires Took(true, Rest(ts), c, thenAt) && Took(true, Rest(thenAt), t, elseAt)
    ensures Took(true, ts, c + t, Rest(elseAt))
  {
    forall stack: List<Token>
      ensures Scan(true, stack, ts) == Scan(true, stack, Rest(elseAt))
    {
      var last := Cons(Else, stack);
      var owed := Cons(Then, last);
      assert Stacked(Nil, stack) == stack;
      assert Stacked(Cons(Else, Nil), stack) == last;
      assert Stacked(Owed(true, If), stack) == owed;
      assert Scan(true, stack, ts) == Scan(true, owed, Rest(ts)) == Scan(true, owed, thenAt);
      assert Scan(true, owed, thenAt) == Scan(true, last, Rest(thenAt)) == Scan(true, last, elseAt);
    }
    assert WordsOf(ts) == WordsOf(Rest(ts)) && WordsOf(thenAt) == WordsOf(Rest(thenAt));
    assert WordsOf(elseAt) == WordsOf(Rest(elseAt));
  }

  /** Any expression the parser accepts, from any text at all. */
  lemma {:induction false} ExprTaken(ts: Stream)
    requires E.ParseExpr(ts).Ok?
    ensures Took(true, ts, ExprWords(E.ParseExpr(ts).value), E.ParseExpr(ts).rest)
    decreases Len(ts), 6
  {
    hide Took, E.ParseChain, E.ParseLambda, E.ParseIf, E.ParseLetIn;
    if Peek(ts).Lambda? {
      LambdaTaken(ts);
    } else if Peek(ts).Let? {
      LetTaken(ts);
    } else if Peek(ts).If? {
      IfTaken(ts);
    } else {
      var e := E.ParseChain(ts);
      ChainTaken(ts);
      if Peek(e.rest).Assign? {
        var r := E.ParseExpr(Rest(e.rest));
        ExprTaken(Rest(e.rest));
        TookThen(true, e.rest, ExprWords(r.value), r.rest);
        TookMore(true, ts, ExprWords(e.value), e.rest, WordOf(Assign) + ExprWords(r.value), r.rest);
        assert ExprWords(e.value) + (WordOf(Assign) + ExprWords(r.value)) == ExprWords(e.value) + ExprWords(r.value);
      }
    }
  }

  lemma {:induction false} LambdaTaken(ts: Stream)
    requires Peek(ts).Lambda? && E.ParseLambda(Rest(ts)).Ok?
    ensures Took(true, ts, ExprWords(E.ParseLambda(Rest(ts)).value), E.ParseLambda(Rest(ts)).rest)
    decreases Len(Rest(ts)), 8
  {
    hide Took, P.ParseArgs, E.ParseExpr;
    var params := P.ParseArgs(Rest(ts));
    var body := E.ParseExpr(Rest(params.rest));
    PatArgsTaken(true, Rest(ts));
    ExprTaken(Rest(params.rest));
    TookPair(ts, PatsWords(params.value), params.rest, ExprWords(body.value), body.rest);
  }

  lemma {:induction false} IfTaken(ts: Stream)
    requires Peek(ts).If? && E.ParseIf(Rest(ts)).Ok?
    ensures Took(true, ts, ExprWords(E.ParseIf(Rest(ts)).value), E.ParseIf(Rest(ts)).rest)
    decreases Len(Rest(ts)), 8
  {
    hide Took, E.ParseExpr;
    var c := E.ParseExpr(Rest(ts));
    var t := E.ParseExpr(Rest(c.rest));
    var n := E.ParseExpr(Rest(t.rest));
    ExprTaken(Rest(ts));
    ExprTaken(Rest(c.rest));
    ExprTaken(Rest(t.rest));
    TookIf(ts, ExprWords(c.value), c.rest, ExprWords(t.value), t.rest);
    TookMore(true, ts, ExprWords(c.value) + ExprWords(t.value), Rest(t.rest), ExprWords(n.value), n.rest);
  }

  lemma {:induction false} LetTaken(ts: Stream)
    requires Peek(ts).Let? && E.ParseLetIn(Rest(ts)).Ok?
    ensures Took(true, ts, ExprWords(E.ParseLetIn(Rest(ts)).value), E.ParseLetIn(Rest(ts)).rest)
    decreases Len(Rest(ts)), 8
  {
    hide Took, E.ParseExpr, E.ParseBind;
    var bind := E.ParseBind(Rest(ts));
    var body := E.ParseExpr(Rest(bind.rest));
    BindTaken(Rest(ts));
    ExprTaken(Rest(bind.rest));
    TookPair(ts, LhsWords(bind.value.lhs) + ExprWords(bind.value.body), bind.rest, ExprWords(body.value), body.rest);
  }

  /** A binding, up to what follows its right side. */
  lemma {:induction false} BindTaken(ts: Stream)
    requires E.ParseBind(ts).Ok?
    ensures var r := E.ParseBind(ts); Took(true, ts, LhsWords(r.value.lhs) + ExprWords(r.value.body), r.rest)
    decreases Len(ts), 7
  {
    hide Took, E.ParseExpr, E.ParseLhs;
    var lhs := E.ParseLhs(ts);
    var body := E.ParseExpr(Rest(lhs.rest));
    LhsTaken(ts);
    ExprTaken(Rest(lhs.rest));
    TookThen(true, lhs.rest, ExprWords(body.value), body.rest);
    TookMore(true, ts, LhsWords(lhs.value), lhs.rest, WordOf(Equals) + ExprWords(body.value), body.rest);
    assert WordOf(Equals) + ExprWords(body.value) == ExprWords(body.value);
  }

  lemma LhsTaken(ts: Stream)
    requires E.ParseLhs(ts).Ok?
    ensures Took(true, ts, LhsWords(E.ParseLhs(ts).value), E.ParseLhs(ts).rest)
  {
    hide Took, P.ParseArgs, P.ParsePat;
    if Peek(ts).VarId? {
      PatArgsTaken(true, Rest(ts));
      var args := P.ParseArgs(Rest(ts));
      TookThen(true, ts, PatsWords(args.value), args.rest);
    } else {
      PatTaken(true, ts);
    }
  }

  lemma {:induction false} ChainTaken(ts: Stream)
    requires E.ParseChain(ts).Ok?
    ensures Took(true, ts, ExprWords(E.ParseChain(ts).value), E.ParseChain(ts).rest)
    decreases Len(ts), 5
  {
    hide Took, E.ParseApp, E.ParseOps;
    var head := E.ParseApp(ts);
    var ops := E.ParseOps(head.rest);
    AppTaken(ts);
    OpsTaken(head.rest);
    TookMore(true, ts, ExprWords(head.value), head.rest, OpsWords(ops.value), ops.rest);
    assert OpsWords(Nil) == {} && ExprWords(head.value) + {} == ExprWords(head.value);
  }

  lemma {:induction false} OpsTaken(ts: Stream)
    requires E.ParseOps(ts).Ok?
    ensures Took(true, ts, OpsWords(E.ParseOps(ts).value), E.ParseOps(ts).rest)
    decreases Len(ts), 5
  {
    hide Took, E.ParseApp;
    if !E.AtInfixOp(ts) {
      TookNothing(true, ts);
    } else {
      var backtick := Peek(ts).Backtick?;
      var start := if backtick then Rest(Rest(Rest(ts))) else Rest(ts);
      var rhs := E.ParseApp(start);
      AppTaken(start);
      var more := E.ParseOps(rhs.rest);
      OpsTaken(rhs.rest);
      var words := ExprWords(rhs.value) + OpsWords(more.value);
      TookMore(true, start, ExprWords(rhs.value), rhs.rest, OpsWords(more.value), more.rest);
      if backtick {
        TookThen(true, Rest(Rest(ts)), words, more.rest);
        TookThen(true, Rest(ts), WordOf(Backtick) + words, more.rest);
        TookThen(true, ts, WordOf(Peek2(ts)) + (WordOf(Backtick) + words), more.rest);
        assert WordOf(Backtick) + (WordOf(Peek2(ts)) + (WordOf(Backtick) + words)) == {VarId(Peek2(ts).s)} + words;
      } else {
        TookThen(true, ts, words, more.rest);
        assert WordOf(ts.head) + words == words;
      }
      assert OpsWords(E.ParseOps(ts).value) == (if backtick then {VarId(Peek2(ts).s)} else {}) + words;
    }
  }

  lemma {:induction false} AppTaken(ts: Stream)
    requires E.ParseApp(ts).Ok?
    ensures Took(true, ts, ExprWords(E.ParseApp(ts).value), E.ParseApp(ts).rest)
    decreases Len(ts), 4
  {
    hide Took, E.ParseAtom, E.ParseArgs;
    if Peek(ts).VarSym? {
      var body := E.ParseApp(Rest(ts));
      AppTaken(Rest(ts));
      TookThen(true, ts, ExprWords(body.value), body.rest);
      assert WordOf(ts.head) + ExprWords(body.value) == ExprWords(body.value);
    } else {
      var fn := E.ParseAtom(ts);
      AtomTaken(ts);
      ArgsTaken(fn.value, ts, fn.rest);
    }
  }

  lemma {:induction false} ArgsTaken(fn: E.Expr, from: Stream, ts: Stream)
    requires E.ParseArgs(fn, ts).Ok? && Took(true, from, ExprWords(fn), ts)
    ensures Took(true, from, ExprWords(E.ParseArgs(fn, ts).value), E.ParseArgs(fn, ts).rest)
    decreases Len(ts), 3
  {
    hide Took, E.ParseAtom;
    if E.StartsAtom(Peek(ts)) {
      var arg := E.ParseAtom(ts);
      AtomTaken(ts);
      TookMore(true, from, ExprWords(fn), ts, ExprWords(arg.value), arg.rest);
      ArgsTaken(E.EApp(fn, arg.value), from, arg.rest);
    }
  }

  lemma {:induction false} AtomTaken(ts: Stream)
    requires E.ParseAtom(ts).Ok?
    ensures Took(true, ts, ExprWords(E.ParseAtom(ts).value), E.ParseAtom(ts).rest)
    decreases Len(ts), 2
  {
    hide Took, E.ParseCore, E.ParsePostfix;
    var e := E.ParseCore(ts);
    CoreTaken(ts);
    PostfixTaken(e.value, ts, e.rest);
  }

  lemma {:induction false} PostfixTaken(e: E.Expr, from: Stream, ts: Stream)
    requires E.ParsePostfix(e, ts).Ok? && Took(true, from, ExprWords(e), ts)
    ensures Took(true, from, ExprWords(E.ParsePostfix(e, ts).value), E.ParsePostfix(e, ts).rest)
    decreases Len(ts), 1
  {
    hide Took, E.ParseRecord;
    if Peek(ts).Dot? && (Peek2(ts).VarId? || Peek2(ts).ConId?) {
      var name := Rest(ts);
      TookToken(true, name);
      TookThen(true, ts, WordOf(name.head), Rest(name));
      TookMore(true, from, ExprWords(e), ts, WordOf(Dot) + WordOf(name.head), Rest(name));
      var dotted := E.EDot(e, name.head.s, name.head.ConId?);
      assert ExprWords(e) + (WordOf(Dot) + WordOf(name.head)) == ExprWords(dotted);
      PostfixTaken(dotted, from, Rest(name));
    } else if Peek(ts).LBrace? && E.IsConAtom(e) {
      var r := E.ParseRecord(e, Rest(ts));
      RecordTaken(e, from, ts);
      PostfixTaken(r.value, from, r.rest);
    }
  }

  lemma {:induction false} CoreTaken(ts: Stream)
    requires E.ParseCore(ts).Ok?
    ensures Took(true, ts, ExprWords(E.ParseCore(ts).value), E.ParseCore(ts).rest)
    decreases Len(ts), 0
  {
    hide Took, E.ParseParens, E.ParseBrackets;
    if Peek(ts).LParen? {
      ParensTaken(ts);
    } else if Peek(ts).LBracket? {
      BracketsTaken(ts);
    } else {
      TookToken(true, ts);
    }
  }

  lemma {:induction false} ParensTaken(ts: Stream)
    requires Peek(ts).LParen? && E.ParseParens(Rest(ts)).Ok?
    ensures Took(true, ts, ExprWords(E.ParseParens(Rest(ts)).value), E.ParseParens(Rest(ts)).rest)
    decreases Len(Rest(ts)), 8
  {
    hide Took, E.ParseItems;
    var open := Rest(ts);
    if Peek(open).RParen? {
      TookNothing(true, open);
      TookBracket(true, ts, {}, open);
    } else if Peek(open).VarSym? && Peek2(open).RParen? {
      TookToken(true, open);
      TookBracket(true, ts, {}, Rest(open));
    } else {
      var r := E.ParseItems(open);
      ItemsTaken(open);
      TookBracket(true, ts, ExprsWords(r.value), r.rest);
      assert ExprsWords(Nil) == {};
      assert r.value.tail == Nil ==> ExprsWords(r.value) == ExprWords(r.value.head);
    }
  }

  lemma {:induction false} BracketsTaken(ts: Stream)
    requires Peek(ts).LBracket? && E.ParseBrackets(Rest(ts)).Ok?
    ensures Took(true, ts, ExprWords(E.ParseBrackets(Rest(ts)).value), E.ParseBrackets(Rest(ts)).rest)
    decreases Len(Rest(ts)), 8
  {
    hide Took, E.ParseItems;
    if Peek(Rest(ts)).RBracket? {
      TookNothing(true, Rest(ts));
      TookBracket(true, ts, {}, Rest(ts));
      assert ExprsWords(Nil) == {};
    } else {
      var r := E.ParseItems(Rest(ts));
      ItemsTaken(Rest(ts));
      TookBracket(true, ts, ExprsWords(r.value), r.rest);
    }
  }

  lemma {:induction false} ItemsTaken(ts: Stream)
    requires E.ParseItems(ts).Ok?
    ensures Took(true, ts, ExprsWords(E.ParseItems(ts).value), E.ParseItems(ts).rest)
    decreases Len(ts), 7
  {
    hide Took, E.ParseExpr;
    var r := E.ParseExpr(ts);
    ExprTaken(ts);
    var one := ExprWords(r.value);
    if Peek(r.rest).Comma? {
      var more := E.ParseItems(Rest(r.rest));
      ItemsTaken(Rest(r.rest));
      TookThen(true, r.rest, ExprsWords(more.value), more.rest);
      TookMore(true, ts, one, r.rest, WordOf(Comma) + ExprsWords(more.value), more.rest);
      assert one + (WordOf(Comma) + ExprsWords(more.value)) == one + ExprsWords(more.value);
    } else {
      assert ExprsWords(Cons(r.value, Nil)) == one;
    }
  }

  /** A record, after its constructor. */
  lemma {:induction false} RecordTaken(path: E.Expr, from: Stream, ts: Stream)
    requires Took(true, from, ExprWords(path), ts) && Peek(ts).LBrace? && E.ParseRecord(path, Rest(ts)).Ok?
    ensures Took(true, from, ExprWords(E.ParseRecord(path, Rest(ts)).value), E.ParseRecord(path, Rest(ts)).rest)
    decreases Len(Rest(ts)), 9
  {
    hide Took, E.ParseBraced, E.ParseExpr;
    var inside := Rest(ts);
    var r := E.ParseRecord(path, inside);
    var spread, start, words := SpreadTaken(path, inside);
    BracedTaken(path, spread, start);
    var fields, closer := FieldWords(r.value.fields), FieldsEnd(start);
    TookMore(true, inside, words, start, fields, closer);
    TookBracket(true, ts, words + fields, closer);
    TookMore(true, from, ExprWords(path), ts, words + fields, Rest(closer));
    assert ExprWords(r.value) == ExprWords(path) + (words + fields);
  }

  lemma {:induction false} SpreadTaken(path: E.Expr, ts: Stream)
    returns (spread: Option<E.Expr>, start: Stream, words: set<Token>)
    requires E.ParseRecord(path, ts).Ok?
    ensures E.ParseRecord(path, ts) == E.ParseBraced(path, spread, start)
    ensures Took(true, ts, words, start) && Len(start) <= Len(ts)
    ensures words == if spread.Some? then ExprWords(spread.value) else {}
    decreases Len(ts), 8
  {
    hide Took, E.ParseBraced, E.ParseExpr;
    if Peek(ts).DotDot? {
      var r := E.ParseExpr(Rest(ts));
      ExprTaken(Rest(ts));
      spread, words := Some(r.value), ExprWords(r.value);
      start := if Peek(r.rest).Comma? then Rest(r.rest) else r.rest;
      TookThen(true, ts, words, r.rest);
      assert WordOf(DotDot) + words == words;
      if Peek(r.rest).Comma? {
        TookToken(true, r.rest);
        TookMore(true, ts, words, r.rest, WordOf(Comma), start);
        assert words + WordOf(Comma) == words;
      }
    } else {
      spread, start, words := None, ts, {};
      TookNothing(true, ts);
    }
  }

  /** Where the `}` of a record stands. */
  ghost function FieldsEnd(ts: Stream): Stream
  {
    if Peek(ts).RBrace? then ts else if E.ParseFields(ts).Ok? then E.ParseFields(ts).rest else ts
  }

  lemma {:induction false} BracedTaken(path: E.Expr, spread: Option<E.Expr>, ts: Stream)
    requires E.ParseBraced(path, spread, ts).Ok?
    ensures var r, closer := E.ParseBraced(path, spread, ts), FieldsEnd(ts);
            && r.value.ERecord? && r.value.path == path && r.value.spread == spread
            && Peek(closer).RBrace? && r.rest == Rest(closer)
            && Took(true, ts, FieldWords(r.value.fields), closer)
    decreases Len(ts), 8
  {
    hide Took, E.ParseFields;
    if Peek(ts).RBrace? {
      TookNothing(true, ts);
      assert FieldWords(Nil) == {};
    } else {
      FieldsTaken(ts);
    }
  }

  lemma {:induction false} FieldsTaken(ts: Stream)
    requires E.ParseFields(ts).Ok?
    ensures Took(true, ts, FieldWords(E.ParseFields(ts).value), E.ParseFields(ts).rest)
    decreases Len(ts), 7
  {
    hide Took, E.ParseField;
    var r := E.ParseField(ts);
    FieldTaken(ts);
    var one := {VarId(r.value.name)} + ExprWords(r.value.value);
    if Peek(r.rest).Comma? {
      var more := E.ParseFields(Rest(r.rest));
      FieldsTaken(Rest(r.rest));
      TookThen(true, r.rest, FieldWords(more.value), more.rest);
      TookMore(true, ts, one, r.rest, WordOf(Comma) + FieldWords(more.value), more.rest);
      assert one + (WordOf(Comma) + FieldWords(more.value)) == one + FieldWords(more.value);
    } else {
      assert FieldWords(Cons(r.value, Nil)) == one;
    }
  }

  lemma {:induction false} FieldTaken(ts: Stream)
    requires E.ParseField(ts).Ok?
    ensures var r := E.ParseField(ts); Took(true, ts, {VarId(r.value.name)} + ExprWords(r.value.value), r.rest)
    decreases Len(ts), 6
  {
    hide Took, E.ParseExpr;
    if Peek2(ts).Equals? {
      var r := E.ParseExpr(Rest(Rest(ts)));
      ExprTaken(Rest(Rest(ts)));
      TookThen(true, Rest(ts), ExprWords(r.value), r.rest);
      TookThen(true, ts, WordOf(Equals) + ExprWords(r.value), r.rest);
      assert WordOf(ts.head) + (WordOf(Equals) + ExprWords(r.value)) == {VarId(ts.head.s)} + ExprWords(r.value);
    } else {
      TookToken(true, ts);
      assert {VarId(ts.head.s)} + ExprWords(E.EVar(ts.head.s)) == WordOf(ts.head);
    }
  }
}
