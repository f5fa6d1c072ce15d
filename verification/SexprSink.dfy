/**
  The dump as the source runs it (grammar/c/wok_sexpr.c:30-255): recursive rendering that appends
  to a sink. Each method is proved to append exactly what `Sexpr` says, in front of anything.
*/
module SexprSink {
  import opened Tokens
  import opened Sexpr

  lemma Snoc(buf: seq<char>, c: char, rest: Text)
    ensures Prepend(buf + [c], rest) == Prepend(buf, Cons(c, rest))
  {
    assert (buf + [c])[..|buf|] == buf;
  }

  class Sink {
    var buf: seq<char>

    constructor ()
      ensures buf == []
    {
      buf := [];
    }

    method PutChar(c: char)
      modifies this
      ensures forall rest :: Prepend(buf, rest) == Prepend(old(buf), Cons(c, rest))
    {
      buf := buf + [c];
      forall rest
        ensures Prepend(buf, rest) == Prepend(old(buf), Cons(c, rest))
      {
        Snoc(old(buf), c, rest);
      }
    }

    method PutStr(str: Text)
      modifies this
      ensures forall rest :: Prepend(buf, rest) == Prepend(old(buf), Append(str, rest))
    {
      hide Prepend;
      var t := str;
      while t.Cons?
        invariant forall rest :: Prepend(buf, Append(t, rest)) == Prepend(old(buf), Append(str, rest))
        decreases t
      {
        ghost var before, was := buf, t;
        PutChar(t.head);
        t := t.tail;
        forall rest
          ensures Prepend(buf, Append(t, rest)) == Prepend(old(buf), Append(str, rest))
        {
          assert Prepend(before, Append(was, rest)) == Prepend(before, Cons(was.head, Append(t, rest)));
        }
      }
      forall rest
        ensures Prepend(buf, rest) == Prepend(old(buf), Append(str, rest))
      {
        assert Append(t, rest) == rest;
      }
    }

    method EmitIndent(depth: nat)
      modifies this
      ensures forall rest :: Prepend(buf, rest) == Prepend(old(buf), Indent(depth, rest))
    {
      hide Prepend;
      var i := 0;
      while i < depth
        invariant i <= depth
        invariant forall rest :: Prepend(buf, Indent(depth - i, rest)) == Prepend(old(buf), Indent(depth, rest))
      {
        ghost var before := buf;
        PutChar(' ');
        PutChar(' ');
        i := i + 1;
        forall rest
          ensures Prepend(buf, Indent(depth - i, rest)) == Prepend(old(buf), Indent(depth, rest))
        {
          assert Prepend(before, Indent(depth - i + 1, rest)) ==
                 Prepend(before, Cons(' ', Cons(' ', Indent(depth - i, rest))));
        }
      }
      forall rest
        ensures Prepend(buf, rest) == Prepend(old(buf), Indent(depth, rest))
      {
        assert Indent(0, rest) == rest;
      }
    }

    method Line(depth: nat)
      modifies this
      ensures forall rest :: Prepend(buf, rest) == Prepend(old(buf), NewLine(depth, rest))
    {
      hide Prepend, Indent;
      PutChar('\n');
      EmitIndent(depth);
    }

    method RenderChar(c: char)
      modifies this
      ensures forall rest :: Prepend(buf, rest) == Prepend(old(buf), EscapeOne(c, rest))
    {
      hide Prepend, HexDigit;
      if c == '\\' || c == '"' || c == '\n' || c == '\t' || c == '\r' {
        PutChar('\\');
        PutChar(if c == '\n' then 'n' else if c == '\t' then 't' else if c == '\r' then 'r' else c);
      } else if c as int < 0x20 {
        PutChar('\\');
        PutChar('x');
        PutChar(HexDigit(c as int / 16));
        PutChar(HexDigit(c as int % 16));
      } else {
        PutChar(c);
      }
    }

    method RenderString(text: Text)
      modifies this
      ensures forall rest :: Prepend(buf, rest) == Prepend(old(buf), Quote(text, rest))
    {
      hide Prepend, EscapeOne;
      PutChar('"');
      ghost var inside := buf;
      var t := text;
      while t.Cons?
        invariant forall rest :: Prepend(buf, Escape(t, rest)) == Prepend(inside, Escape(text, rest))
        decreases t
      {
        ghost var before, was := buf, t;
        RenderChar(t.head);
        t := t.tail;
        forall rest
          ensures Prepend(buf, Escape(t, rest)) == Prepend(inside, Escape(text, rest))
        {
          assert Prepend(before, Escape(was, rest)) == Prepend(before, EscapeOne(was.head, Escape(t, rest)));
        }
      }
      ghost var closing := buf;
      PutChar('"');
      forall rest
        ensures Prepend(buf, rest) == Prepend(old(buf), Quote(text, rest))
      {
        assert Prepend(closing, Cons('"', rest)) == Prepend(closing, Escape(t, Cons('"', rest)));
      }
    }

    method RenderUint(v: nat)
      modifies this
      ensures forall rest :: Prepend(buf, rest) == Prepend(old(buf), Digits(v, rest))
      decreases v
    {
      hide Prepend;
      if v >= 10 {
        RenderUint(v / 10);
      }
      PutChar(DigitChar(v % 10));
    }

    method RenderNode(s: Schema, n: Node, depth: nat)
      modifies this
      ensures forall rest :: Prepend(buf, rest) == Prepend(old(buf), Dump(s, n, depth, rest))
      decreases n, 1
    {
      hide Prepend, DumpSlots, Append, IsBlock;
      if depth > MAX_DEPTH {
        PutStr(DEPTH);
        return;
      }
      var d := Desc(s, n.tag);
      if d.None? {
        return;
      }
      PutChar('(');
      PutStr(d.value.name);
      RenderSlots(s, n.slots, IsBlock(d.value.fields), depth);
      PutChar(')');
    }

    method RenderSlots(s: Schema, slots: List<Value>, block: bool, depth: nat)
      modifies this
      ensures forall rest :: Prepend(buf, rest) == Prepend(old(buf), DumpSlots(s, slots, block, depth, rest))
      decreases slots, 0
    {
      hide Prepend, DumpValue, NewLine;
      if slots.Cons? {
        if block {
          Line(depth + 1);
        } else {
          PutChar(' ');
        }
        RenderField(s, slots.head, if block then depth + 1 else depth);
        RenderSlots(s, slots.tail, block, depth);
      }
    }

    method RenderField(s: Schema, v: Value, depth: nat)
      modifies this
      ensures forall rest :: Prepend(buf, rest) == Prepend(old(buf), DumpValue(s, v, depth, rest))
      decreases v, 2
    {
      hide Prepend, Dump, DumpItems, Append, NewLine, Quote, Digits;
      match v
      case VNode(n) => RenderNode(s, n, depth);
      case VNone =>
        PutChar('(');
        PutStr(NONE);
        PutChar(')');
      case VSome(n) =>
        PutChar('(');
        PutStr(SOME);
        Line(depth + 1);
        RenderNode(s, n, depth + 1);
        PutChar(')');
      case VSeq(items) =>
        PutChar('(');
        PutStr(SEQ);
        RenderItems(s, items, depth);
        PutChar(')');
      case VName(t) => RenderString(t);
      case VText(t) => RenderString(t);
      case VInt(k) => RenderUint(k);
      case VFlag(b) => PutStr(if b then TRUE else FALSE);
    }

    method RenderItems(s: Schema, items: List<Node>, depth: nat)
      modifies this
      ensures forall rest :: Prepend(buf, rest) == Prepend(old(buf), DumpItems(s, items, depth, rest))
      decreases items, 0
    {
      hide Prepend, Dump, NewLine;
      if items.Cons? {
        Line(depth + 1);
        RenderNode(s, items.head, depth + 1);
        RenderItems(s, items.tail, depth);
      }
    }

    /** wok_sexpr_dump_string: the bytes in the sink are the dump. */
    method DumpString(s: Schema, n: Node)
      requires buf == []
      modifies this
      ensures Prepend(buf, Nil) == DumpAll(s, n)
    {
      hide Dump;
      ghost var empty := buf;
      RenderNode(s, n, 1);
      PutChar('\n');
      assert Prepend(empty, DumpAll(s, n)) == DumpAll(s, n);
    }
  }
}
