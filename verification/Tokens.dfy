/**
  The token stream as the parser sees it, and the parser's cursor over it
  (grammar/c/wok_parse.c:40-200). Spellings stay on the tokens; positions do not.
*/
module Tokens {

  datatype List<T> = Nil | Cons(head: T, tail: List<T>)

  datatype Token =
    | VarId(s: string) | ConId(s: string) | VarSym(s: string)
    | IntLit(v: nat) | StrLit(s: string) | CharLit(s: string)
    | LParen | RParen | LBracket | RBracket | LBrace | RBrace
    | Comma | Dot | DotDot | Equals | Colon | ColonColon | Arrow | FatArrow | Assign | Backtick
    | Underscore | Lambda
    | As | With | Let | In | If | Then | Else
    | Newline | Dedent | Eof

  type Stream = List<Token>

  function Len<T>(xs: List<T>): nat
  {
    match xs
    case Nil => 0
    case Cons(_, tail) => 1 + Len(tail)
  }

  /** Reading past the end yields end of file, as reading the last token again does. */
  function Peek(ts: Stream): Token
  {
    if ts.Cons? then ts.head else Eof
  }

  function Rest(ts: Stream): (r: Stream)
    ensures ts.Cons? ==> Len(r) < Len(ts)
  {
    if ts.Cons? then ts.tail else Nil
  }

  function Peek2(ts: Stream): Token
  {
    Peek(Rest(ts))
  }

  function Peek3(ts: Stream): Token
  {
    Peek(Rest(Rest(ts)))
  }

  /** What a production makes of a stream: a tree and what is left, or a reported fault. */
  datatype Result<T> = Fail | Ok(value: T, rest: Stream)

  datatype Option<T> = None | Some(value: T)

  // ---------------------------------------------------------------- buffers and streams

  /** The elements from `i` on. */
  function From<T>(xs: seq<T>, i: nat): List<T>
    requires i <= |xs|
    decreases |xs| - i
  {
    if i == |xs| then Nil else Cons(xs[i], From(xs, i + 1))
  }

  lemma {:induction false} LenFrom<T>(xs: seq<T>, i: nat)
    requires i <= |xs|
    ensures Len(From(xs, i)) == |xs| - i
    decreases |xs| - i
  {
    if i < |xs| {
      LenFrom(xs, i + 1);
    }
  }

  /** A buffer in front of a list. */
  function Prepend<T>(buf: seq<T>, more: List<T>): List<T>
  {
    if buf == [] then more else Prepend(buf[..|buf| - 1], Cons(buf[|buf| - 1], more))
  }

  // ---------------------------------------------------------------- module paths

  /** Upper-case names joined by dots. */
  function PrintPath(path: List<string>, rest: Stream): Stream
  {
    match path
    case Nil => rest
    case Cons(x, xs) => Cons(ConId(x), if xs == Nil then rest else Cons(Dot, PrintPath(xs, rest)))
  }

  function ParsePath(ts: Stream): (r: Result<List<string>>)
    ensures r.Ok? ==> Len(r.rest) < Len(ts)
  {
    if !Peek(ts).ConId? then Fail
    else if Peek2(ts).Dot? && Peek3(ts).ConId? then
      match ParsePath(Rest(Rest(ts)))
      case Fail => Fail
      case Ok(path, rest) => Ok(Cons(Peek(ts).s, path), rest)
    else Ok(Cons(Peek(ts).s, Nil), Rest(ts))
  }

  lemma {:induction false} PathBack(path: List<string>, rest: Stream)
    requires path.Cons? && !Peek(rest).Dot?
    ensures ParsePath(PrintPath(path, rest)) == Ok(path, rest)
  {
    if path.tail.Cons? {
      PathBack(path.tail, rest);
    }
  }
}
