/**
  The pattern productions as the source runs them (grammar/c/wok_parse.c:830-1048), each proved
  to compute the production of PatternLadder, fault for fault.
*/
module PatternParser {
  import opened Tokens
  import opened Cursors
  import L = PatternLadder

  predicate StartsAtomPat(p: Cursor)
    reads p
    requires p.Valid()
  {
    var t := p.Cur();
    || t.VarId? || t.ConId? || t.Underscore? || t.IntLit? || t.StrLit? || t.CharLit? || t.LParen? || t.LBracket?
    || (t.VarSym? && p.At(1).IntLit?)
  }

  method ParsePat(p: Cursor) returns (r: L.Pat)
    requires p.Valid()
    modifies p
    ensures p.Kept(old(p.i), old(p.panic))
    ensures !old(p.panic) ==> Outcome(L.ParsePat(old(p.Now())), p.panic, r, p.Now())
    decreases p.Measure(), 3
  {
    var head := ParsePatApp(p);
    r := head;
    if p.Cur().ColonColon? {
      p.Bump();
      var tail := ParsePat(p);
      r := L.PCons(head, tail);
    }
  }

  method ParsePatApp(p: Cursor) returns (r: L.Pat)
    requires p.Valid()
    modifies p
    ensures p.Kept(old(p.i), old(p.panic))
    ensures !old(p.panic) ==> Outcome(L.ParsePatApp(old(p.Now())), p.panic, r, p.Now())
    decreases p.Measure(), 2
  {
    if !p.Cur().ConId? {
      r := ParseAtomPat(p);
      return;
    }
    var path := ParseModPath(p);
    if p.Cur().LBrace? {
      r := ParseRecordPat(p, path);
      r := ParseAsTail(p, r);
    } else if !StartsAtomPat(p) {
      r := ParseAsTail(p, L.PCon(path, Nil));
    } else {
      var args := ParseArgs(p);
      r := L.PCon(path, args);
    }
  }

  /** The loop over juxtaposed atom patterns, for constructors, lambdas and bindings. */
  method ParseArgs(p: Cursor) returns (args: List<L.Pat>)
    requires p.Valid()
    modifies p
    ensures p.Kept(old(p.i), old(p.panic))
    ensures !old(p.panic) ==> Outcome(L.ParseArgs(old(p.Now())), p.panic, args, p.Now())
    decreases p.Measure(), 2
  {
    ghost var start := p.Now();
    var buf := [];
    GatherStart(L.ParseArgs(start));
    while StartsAtomPat(p) && !p.panic
      invariant p.Kept(old(p.i), old(p.panic))
      invariant !old(p.panic) ==>
                  L.ParseArgs(start) == if p.panic then Fail else Gathered(buf, L.ParseArgs(p.Now()))
      decreases p.Measure(), if p.panic then 0 else 1
    {
      ghost var i0 := p.i;
      var arg := ParseAtomPat(p);
      LenFrom(p.tok, i0);
      LenFrom(p.tok, p.i);
      GatherStep(buf, arg, L.ParseArgs(p.Now()));
      buf := buf + [arg];
    }
    args := Prepend(buf, Nil);
  }

  method ParseAsTail(p: Cursor, inner: L.Pat) returns (r: L.Pat)
    requires p.Valid()
    modifies p
    ensures p.Kept(old(p.i), old(p.panic))
    ensures !old(p.panic) ==> Outcome(L.ParseTail(Ok(inner, old(p.Now()))), p.panic, r, p.Now())
  {
    ghost var start := p.Now();
    r := inner;
    while p.Cur().As? && !p.panic
      invariant p.Kept(old(p.i), old(p.panic))
      invariant !old(p.panic) ==>
                  L.ParseTail(Ok(inner, start)) == if p.panic then Fail else L.ParseTail(Ok(r, p.Now()))
      decreases p.Measure()
    {
      p.Bump();
      if p.Cur().VarId? {
        r := L.PAs(r, p.Cur().s);
        p.Bump();
      } else {
        p.Fault();
      }
    }
  }

  method ParseAtomPat(p: Cursor) returns (r: L.Pat)
    requires p.Valid()
    modifies p
    ensures p.Kept(old(p.i), old(p.panic))
    ensures !old(p.panic) ==> Outcome(L.ParseAtomPat(old(p.Now())), p.panic, r, p.Now())
    decreases p.Measure(), 1
  {
    r := ParseCore(p);
    r := ParseAsTail(p, r);
  }

  method ParseCore(p: Cursor) returns (r: L.Pat)
    requires p.Valid()
    modifies p
    ensures p.Kept(old(p.i), old(p.panic))
    ensures !old(p.panic) ==> Outcome(L.ParseCore(old(p.Now())), p.panic, r, p.Now())
    decreases p.Measure(), 0
  {
    if p.Cur().VarId? {
      r := L.PVar(p.Cur().s);
      p.Bump();
    } else if p.Cur().Underscore? {
      r := L.PWild;
      p.Bump();
    } else if p.Cur().IntLit? {
      r := L.PInt(p.Cur().v, false);
      p.Bump();
    } else if p.Cur().VarSym? && p.At(1).IntLit? {
      p.Bump();
      r := L.PInt(p.Cur().v, true);
      p.Bump();
    } else if p.Cur().StrLit? {
      r := L.PStr(p.Cur().s);
      p.Bump();
    } else if p.Cur().CharLit? {
      r := L.PChar(p.Cur().s);
      p.Bump();
    } else if p.Cur().ConId? {
      var path := ParseModPath(p);
      if p.Cur().LBrace? {
        r := ParseRecordPat(p, path);
      } else {
        r := L.PCon(path, Nil);
      }
    } else if p.Cur().LParen? {
      p.Bump();
      r := ParseParens(p);
    } else if p.Cur().LBracket? {
      p.Bump();
      r := ParseBrackets(p);
    } else {
      p.Fault();
      r := L.PErr;
    }
  }

  method ParseParens(p: Cursor) returns (r: L.Pat)
    requires p.Valid()
    modifies p
    ensures p.Kept(old(p.i), old(p.panic))
    ensures !old(p.panic) ==> Outcome(L.ParseParens(old(p.Now())), p.panic, r, p.Now())
    decreases p.Measure(), 5
  {
    if p.Cur().RParen? {
      p.Bump();
      r := L.PUnit;
    } else {
      var items := ParseItems(p);
      var ok := p.Expect(RParen);
      PrependSingle(items);
      r := if |items| == 1 then items[0] else L.PTuple(Prepend(items, Nil));
    }
  }

  method ParseBrackets(p: Cursor) returns (r: L.Pat)
    requires p.Valid()
    modifies p
    ensures p.Kept(old(p.i), old(p.panic))
    ensures !old(p.panic) ==> Outcome(L.ParseBrackets(old(p.Now())), p.panic, r, p.Now())
    decreases p.Measure(), 5
  {
    var items := [];
    if !p.Cur().RBracket? && !p.panic {
      items := ParseItems(p);
    }
    var ok := p.Expect(RBracket);
    r := L.PList(Prepend(items, Nil));
  }

  method ParseItems(p: Cursor) returns (items: seq<L.Pat>)
    requires p.Valid()
    modifies p
    ensures p.Kept(old(p.i), old(p.panic)) && |items| > 0
    ensures !old(p.panic) ==> Outcome(L.ParseItems(old(p.Now())), p.panic, Prepend(items, Nil), p.Now())
    decreases p.Measure(), 4
  {
    ghost var start := p.Now();
    var q := ParsePat(p);
    items := [q];
    JoinedOne(q, p.Cur().Comma?, p.Now(), L.ParseItems(Rest(p.Now())));
    while p.Cur().Comma? && !p.panic
      invariant p.Kept(old(p.i), old(p.panic)) && |items| > 0
      invariant !old(p.panic) ==>
                  L.ParseItems(start) ==
                  if p.panic then Fail else Joined(items, p.Cur().Comma?, p.Now(), L.ParseItems(Rest(p.Now())))
      decreases p.Measure(), if p.panic then 0 else 1
    {
      ghost var at := p.Now();
      p.Bump();
      q := ParsePat(p);
      JoinedStep(items, q, p.Cur().Comma?, p.Now(), L.ParseItems(Rest(p.Now())), at);
      items := items + [q];
    }
  }

  /** `..`, the name that takes what is left, and the comma. */
  method ParseOpen(p: Cursor, ghost path: List<string>) returns (open: bool, remainder: Option<string>)
    requires p.Valid()
    modifies p
    ensures p.Kept(old(p.i), old(p.panic)) && p.panic == old(p.panic)
    ensures L.ParseRecord(path, old(p.Now())) == L.ParseBraced(path, open, remainder, p.Now())
  {
    open, remainder := false, None;
    if p.Cur().DotDot? {
      p.Bump();
      open := true;
      if p.Cur().VarId? {
        remainder := Some(p.Cur().s);
        p.Bump();
      }
      if p.Cur().Comma? {
        p.Bump();
      }
    }
  }

  method ParseRecordPat(p: Cursor, path: List<string>) returns (r: L.Pat)
    requires p.Valid() && p.Cur().LBrace?
    modifies p
    ensures p.Kept(old(p.i), old(p.panic))
    ensures !old(p.panic) ==> Outcome(L.ParseRecord(path, Rest(old(p.Now()))), p.panic, r, p.Now())
    decreases p.Measure(), 0
  {
    p.Bump();
    var open, remainder := ParseOpen(p, path);
    var fields := Nil;
    if !p.Cur().RBrace? && !p.panic {
      fields := ParseFields(p);
    }
    var ok := p.Expect(RBrace);
    r := L.PRecord(path, fields, open, remainder);
  }

  method ParseFields(p: Cursor) returns (fields: List<L.FieldPat>)
    requires p.Valid()
    modifies p
    ensures p.Kept(old(p.i), old(p.panic))
    ensures !old(p.panic) ==> Outcome(L.ParseFields(old(p.Now())), p.panic, fields, p.Now())
    decreases p.Measure(), 5
  {
    ghost var start := p.Now();
    var x := ParseFieldPat(p);
    var buf := [x];
    JoinedOne(x, p.Cur().Comma?, p.Now(), L.ParseFields(Rest(p.Now())));
    while p.Cur().Comma? && !p.panic
      invariant p.Kept(old(p.i), old(p.panic))
      invariant !old(p.panic) ==>
                  L.ParseFields(start) ==
                  if p.panic then Fail else Joined(buf, p.Cur().Comma?, p.Now(), L.ParseFields(Rest(p.Now())))
      decreases p.Measure(), if p.panic then 0 else 1
    {
      ghost var at := p.Now();
      p.Bump();
      x := ParseFieldPat(p);
      JoinedStep(buf, x, p.Cur().Comma?, p.Now(), L.ParseFields(Rest(p.Now())), at);
      buf := buf + [x];
    }
    fields := Prepend(buf, Nil);
  }

  method ParseFieldPat(p: Cursor) returns (x: L.FieldPat)
    requires p.Valid()
    modifies p
    ensures p.Kept(old(p.i), old(p.panic))
    ensures !old(p.panic) ==> Outcome(L.ParseField(old(p.Now())), p.panic, x, p.Now())
    decreases p.Measure(), 4
  {
    var name := "";
    if p.Cur().VarId? {
      name := p.Cur().s;
      p.Bump();
    } else {
      p.Fault();
    }
    if p.Cur().Equals? {
      p.Bump();
      var q := ParsePat(p);
      x := L.FieldPat(name, q);
    } else {
      x := L.FieldPat(name, L.PVar(name));
    }
  }
}
