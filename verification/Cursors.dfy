/**
  The parser's state (grammar/c/wok_parse.c:30-200): a token array that ends in EOF, an index
  into it, and the panic flag a fault raises and nothing lowers while a production runs.
*/
module Cursors {
  import opened Tokens

  /** A production's result against its specification: the same tree and rest, or a fault where it has none. */
  ghost predicate Outcome<T(!new)>(spec: Result<T>, panic: bool, r: T, rest: Stream)
  {
    match spec
    case Fail => panic
    case Ok(value, rest') => !panic && r == value && rest == rest'
  }

  class Cursor {
    const tok: seq<Token>
    const foreignSig: bool
    var i: nat
    var panic: bool

    ghost predicate Valid()
      reads this
    {
      i < |tok| && tok[|tok| - 1] == Eof
    }

    ghost function Now(): (r: Stream)
      reads this
      requires Valid()
      ensures r.Cons? && r.head == tok[i]
    {
      From(tok, i)
    }

    /** What every production keeps. */
    ghost predicate Kept(i0: nat, panic0: bool)
      reads this
    {
      Valid() && i0 <= i && (panic0 ==> panic)
    }

    function Measure(): nat
      reads this
      requires Valid()
    {
      |tok| - i
    }

    constructor (tok: seq<Token>, foreignSig: bool)
      requires |tok| > 0 && tok[|tok| - 1] == Eof
      ensures Valid() && this.tok == tok && this.foreignSig == foreignSig && i == 0 && !panic
    {
      this.tok, this.foreignSig, i, panic := tok, foreignSig, 0, false;
    }

    function Cur(): (t: Token)
      reads this
      requires Valid()
      ensures t == Peek(Now())
    {
      tok[i]
    }

    /** The kind `k` tokens ahead; past the end, the last token again. */
    function At(k: nat): (t: Token)
      reads this
      requires Valid()
      ensures k == 1 ==> t == Peek2(Now())
      ensures k == 2 ==> t == Peek3(Now())
    {
      assert From(tok, i) == Cons(tok[i], From(tok, i + 1));
      assert i + 1 < |tok| ==> From(tok, i + 1) == Cons(tok[i + 1], From(tok, i + 2));
      if i + k < |tok| then tok[i + k] else tok[|tok| - 1]
    }

    method Bump()
      requires Valid() && Cur() != Eof
      modifies this`i
      ensures Valid() && i == old(i) + 1 && Now() == Rest(old(Now())) && panic == old(panic)
    {
      i := i + 1;
    }

    method Fault()
      modifies this`panic
      ensures panic && (old(Valid()) ==> Valid() && Now() == old(Now()))
    {
      panic := true;
    }

    /** Step over the expected token, or report what stands here instead. */
    method Expect(t: Token) returns (ok: bool)
      requires Valid() && t != Eof
      modifies this
      ensures Kept(old(i), old(panic)) && ok == (Peek(old(Now())) == t)
      ensures ok ==> Now() == Rest(old(Now())) && i == old(i) + 1 && panic == old(panic)
      ensures !ok ==> Now() == old(Now()) && panic
    {
      ok := Cur() == t;
      if ok {
        Bump();
      } else {
        Fault();
      }
    }
  }

  // ---------------------------------------------------------------- separated lists

  lemma {:induction false} PrependLen<T>(buf: seq<T>, more: List<T>)
    ensures Len(Prepend(buf, more)) == |buf| + Len(more)
  {
    if buf != [] {
      PrependLen(buf[..|buf| - 1], Cons(buf[|buf| - 1], more));
    }
  }

  /** A list of one item is a grouping, not a tuple. */
  lemma PrependSingle<T>(buf: seq<T>)
    requires |buf| > 0
    ensures var l := Prepend(buf, Nil); l.Cons? && (l.tail == Nil <==> |buf| == 1) && (|buf| == 1 ==> l.head == buf[0])
  {
    PrependLen(buf, Nil);
    if |buf| == 1 {
      assert buf[..0] == [];
    }
  }

  /** The whole list, once `buf` is read and `more` is what a separator here leads to. */
  function Joined<T>(buf: seq<T>, separator: bool, rest: Stream, more: Result<List<T>>): Result<List<T>>
  {
    if !separator then Ok(Prepend(buf, Nil), rest)
    else
      match more
      case Fail => Fail
      case Ok(items, rest') => Ok(Prepend(buf, items), rest')
  }

  /** One item and what follows it, as every list production reads it. */
  function Listed<T>(x: T, separator: bool, rest: Stream, more: Result<List<T>>): Result<List<T>>
  {
    if !separator then Ok(Cons(x, Nil), rest)
    else
      match more
      case Fail => Fail
      case Ok(items, rest') => Ok(Cons(x, items), rest')
  }

  lemma JoinedStep<T>(buf: seq<T>, x: T, separator: bool, rest: Stream, more: Result<List<T>>, at: Stream)
    ensures Joined(buf, true, at, Listed(x, separator, rest, more)) == Joined(buf + [x], separator, rest, more)
  {
    assert (buf + [x])[..|buf|] == buf;
  }

  lemma JoinedOne<T>(x: T, separator: bool, rest: Stream, more: Result<List<T>>)
    ensures Listed(x, separator, rest, more) == Joined([x], separator, rest, more)
  {
    JoinedStep([], x, separator, rest, more, rest);
  }

  /** The whole list, when the items are not separated: what is read, then what `more` reads. */
  function Gathered<T>(buf: seq<T>, more: Result<List<T>>): Result<List<T>>
  {
    match more
    case Fail => Fail
    case Ok(items, rest) => Ok(Prepend(buf, items), rest)
  }

  function Consed<T>(x: T, more: Result<List<T>>): Result<List<T>>
  {
    match more
    case Fail => Fail
    case Ok(items, rest) => Ok(Cons(x, items), rest)
  }

  lemma GatherStart<T>(more: Result<List<T>>)
    ensures more == Gathered([], more)
  {
  }

  lemma GatherStep<T>(buf: seq<T>, x: T, more: Result<List<T>>)
    ensures Gathered(buf + [x], more) == Gathered(buf, Consed(x, more))
  {
    assert (buf + [x])[..|buf|] == buf;
  }

  /** parse_modpath, entered at an upper-case name. */
  method ParseModPath(p: Cursor) returns (path: List<string>)
    requires p.Valid() && p.Cur().ConId?
    modifies p
    ensures p.Kept(old(p.i), old(p.panic)) && p.panic == old(p.panic) && old(p.i) < p.i
    ensures ParsePath(old(p.Now())) == Ok(path, p.Now())
  {
    ghost var start := p.Now();
    var parts := [p.Cur().s];
    p.Bump();
    JoinedOne(parts[0], PathGoesOn(p.Now()), p.Now(), ParsePath(Rest(p.Now())));
    while p.Cur().Dot? && p.At(1).ConId?
      invariant p.Valid() && old(p.i) < p.i && p.panic == old(p.panic) && |parts| > 0
      invariant ParsePath(start) == Joined(parts, PathGoesOn(p.Now()), p.Now(), ParsePath(Rest(p.Now())))
      decreases p.Measure()
    {
      ghost var at := p.Now();
      p.Bump();
      var x := p.Cur().s;
      p.Bump();
      JoinedStep(parts, x, PathGoesOn(p.Now()), p.Now(), ParsePath(Rest(p.Now())), at);
      parts := parts + [x];
    }
    path := Prepend(parts, Nil);
  }

  predicate PathGoesOn(ts: Stream)
  {
    Peek(ts).Dot? && Peek2(ts).ConId?
  }
}
