/**
  The type productions as the source runs them (grammar/c/wok_parse.c:650-829): recursive
  descent over the cursor, loops for spines, rows and tuples. Each is proved to compute the
  production of TypeLadder, fault for fault; after a fault they go on, as the source does, until
  the caller's loop sees the flag.
*/
module TypeParser {
  import opened Tokens
  import opened Cursors
  import L = TypeLadder

  method ParseType(p: Cursor) returns (r: L.Ty)
    requires p.Valid()
    modifies p
    ensures p.Kept(old(p.i), old(p.panic))
    ensures !old(p.panic) ==> Outcome(L.ParseType(p.foreignSig, old(p.Now())), p.panic, r, p.Now())
    decreases p.Measure(), 4
  {
    var lhs := ParseArrow(p);
    r := lhs;
    if p.Cur().FatArrow? {
      p.Bump();
      var body := ParseType(p);
      r := L.TQual(lhs, body);
    } else if p.Cur().With? {
      p.Bump();
      var row := ParseRow(p);
      r := L.TWith(lhs, row);
    }
  }

  method ParseArrow(p: Cursor) returns (r: L.Ty)
    requires p.Valid()
    modifies p
    ensures p.Kept(old(p.i), old(p.panic))
    ensures !old(p.panic) ==> Outcome(L.ParseArrow(p.foreignSig, old(p.Now())), p.panic, r, p.Now())
    decreases p.Measure(), 3
  {
    var l := ParseTypeApp(p);
    r := l;
    if p.Cur().Arrow? {
      p.Bump();
      var to := ParseArrow(p);
      r := L.TFun(l, to);
    }
  }

  method ParseTypeApp(p: Cursor) returns (r: L.Ty)
    requires p.Valid()
    modifies p
    ensures p.Kept(old(p.i), old(p.panic))
    ensures !old(p.panic) ==> Outcome(L.ParseTypeApp(p.foreignSig, old(p.Now())), p.panic, r, p.Now())
    decreases p.Measure(), 2
  {
    var mode := L.Transfer(p.foreignSig, p.Cur());
    if mode.Some? {
      p.Bump();
    }
    ghost var start := p.Now();
    var t := ParseAtomType(p);
    ghost var spine := L.ParseSpine(p.foreignSig, start);
    while L.StartsAtom(p.Cur()) && !p.panic
      invariant p.Kept(old(p.i), old(p.panic))
      invariant !old(p.panic) ==> spine == if p.panic then Fail else L.ParseArgs(p.foreignSig, t, p.Now())
      decreases p.Measure(), if p.panic then 0 else 1
    {
      ghost var at := p.Now();
      ghost var i0 := p.i;
      var arg := ParseAtomType(p);
      LenFrom(p.tok, i0);
      LenFrom(p.tok, p.i);
      t := L.TApp(t, arg);
    }
    r := if mode.Some? then L.TTransfer(mode.value, t) else t;
  }

  method ParseAtomType(p: Cursor) returns (r: L.Ty)
    requires p.Valid()
    modifies p
    ensures p.Kept(old(p.i), old(p.panic))
    ensures !old(p.panic) ==> Outcome(L.ParseAtom(p.foreignSig, old(p.Now())), p.panic, r, p.Now())
    decreases p.Measure(), 1
  {
    if p.Cur().VarId? {
      r := L.TVar(p.Cur().s);
      p.Bump();
    } else if p.Cur().ConId? {
      var path := ParseModPath(p);
      r := L.TCon(path);
    } else if p.Cur().LBracket? {
      p.Bump();
      var elem := ParseType(p);
      var ok := p.Expect(RBracket);
      r := L.TList(elem);
    } else if p.Cur().LParen? {
      p.Bump();
      r := ParseGroup(p);
    } else {
      p.Fault();
      r := L.TErr;
    }
  }

  method ParseGroup(p: Cursor) returns (r: L.Ty)
    requires p.Valid()
    modifies p
    ensures p.Kept(old(p.i), old(p.panic))
    ensures !old(p.panic) ==> Outcome(L.ParseGroup(p.foreignSig, old(p.Now())), p.panic, r, p.Now())
    decreases p.Measure(), 6
  {
    if p.Cur().RParen? {
      p.Bump();
      r := L.TUnit;
    } else if p.Cur() == VarId("row") && p.At(1).VarId? && p.At(2).RParen? {
      p.Bump();
      r := L.TRowArg(p.Cur().s);
      p.Bump();
      p.Bump();
    } else {
      var items := ParseItems(p);
      var ok := p.Expect(RParen);
      PrependSingle(items);
      r := if |items| == 1 then items[0] else L.TTuple(Prepend(items, Nil));
    }
  }

  /** One or more types between commas. */
  method ParseItems(p: Cursor) returns (items: seq<L.Ty>)
    requires p.Valid()
    modifies p
    ensures p.Kept(old(p.i), old(p.panic)) && |items| > 0
    ensures !old(p.panic) ==>
              Outcome(L.ParseItems(p.foreignSig, old(p.Now())), p.panic, Prepend(items, Nil), p.Now())
    decreases p.Measure(), 5
  {
    ghost var start := p.Now();
    var t := ParseType(p);
    items := [t];
    JoinedOne(t, p.Cur().Comma?, p.Now(), L.ParseItems(p.foreignSig, Rest(p.Now())));
    while p.Cur().Comma? && !p.panic
      invariant p.Kept(old(p.i), old(p.panic)) && |items| > 0
      invariant !old(p.panic) ==>
                  L.ParseItems(p.foreignSig, start) ==
                  if p.panic then Fail
                  else Joined(items, p.Cur().Comma?, p.Now(), L.ParseItems(p.foreignSig, Rest(p.Now())))
      decreases p.Measure(), if p.panic then 0 else 1
    {
      ghost var at := p.Now();
      p.Bump();
      t := ParseType(p);
      JoinedStep(items, t, p.Cur().Comma?, p.Now(), L.ParseItems(p.foreignSig, Rest(p.Now())), at);
      items := items + [t];
    }
  }

  method ParseRow(p: Cursor) returns (row: List<L.Row>)
    requires p.Valid()
    modifies p
    ensures p.Kept(old(p.i), old(p.panic))
    ensures !old(p.panic) ==> Outcome(L.ParseRow(p.foreignSig, old(p.Now())), p.panic, row, p.Now())
    decreases p.Measure(), 4
  {
    ghost var start := p.Now();
    var e := ParseRowEntry(p);
    var entries := [e];
    JoinedOne(e, p.Cur() == VarSym("+"), p.Now(), L.ParseRow(p.foreignSig, Rest(p.Now())));
    while p.Cur() == VarSym("+") && !p.panic
      invariant p.Kept(old(p.i), old(p.panic))
      invariant !old(p.panic) ==>
                  L.ParseRow(p.foreignSig, start) ==
                  if p.panic then Fail
                  else Joined(entries, p.Cur() == VarSym("+"), p.Now(), L.ParseRow(p.foreignSig, Rest(p.Now())))
      decreases p.Measure(), if p.panic then 0 else 1
    {
      ghost var at := p.Now();
      p.Bump();
      e := ParseRowEntry(p);
      JoinedStep(entries, e, p.Cur() == VarSym("+"), p.Now(), L.ParseRow(p.foreignSig, Rest(p.Now())), at);
      entries := entries + [e];
    }
    row := Prepend(entries, Nil);
  }

  method ParseRowEntry(p: Cursor) returns (e: L.Row)
    requires p.Valid()
    modifies p
    ensures p.Kept(old(p.i), old(p.panic))
    ensures !old(p.panic) ==> Outcome(L.ParseEntry(p.foreignSig, old(p.Now())), p.panic, e, p.Now())
    decreases p.Measure(), 3
  {
    if p.Cur().LParen? && p.At(1).VarId? && p.At(2).Colon? {
      p.Bump();
      var role := p.Cur().s;
      p.Bump();
      p.Bump();
      var ty := ParseTypeApp(p);
      var ok := p.Expect(RParen);
      e := L.Role(role, ty);
    } else if p.Cur() == VarId("eff") && p.At(1).VarId? {
      p.Bump();
      e := L.EffVar(p.Cur().s);
      p.Bump();
    } else {
      var ty := ParseTypeApp(p);
      e := L.Slot(ty);
    }
  }
}
