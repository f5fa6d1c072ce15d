/**
  The reader as the source runs it (grammar/c/wok_sexpr.c:257-776): a position that only moves
  forward, and a pool of decoded bytes that only grows. Names and texts in the tree it builds are
  spans of the pool; resolved, the tree is the one `Sexpr.Read` says, and a fault is a fault there.
*/
module SexprReader {
  import opened Tokens
  import opened Sexpr

  datatype SNode = SNode(tag: nat, slots: List<SValue>)

  datatype SValue =
    | SChild(node: SNode) | SNone | SSome(node: SNode) | SItems(items: List<SNode>)
    | SName(off: nat, len: nat) | SText(off: nat, len: nat) | SInt(num: nat) | SFlag(flag: bool)

  /** The bytes of a span. */
  function Span(pool: seq<char>, off: nat, len: nat): Text
  {
    if off + len <= |pool| then From(pool[..off + len], off) else Nil
  }

  function Resolve(pool: seq<char>, n: SNode): Node
    decreases n, 1
  {
    Node(n.tag, ResolveSlots(pool, n.slots))
  }

  function ResolveSlots(pool: seq<char>, slots: List<SValue>): List<Value>
    decreases slots, 0
  {
    match slots
    case Nil => Nil
    case Cons(v, more) => Cons(ResolveValue(pool, v), ResolveSlots(pool, more))
  }

  function ResolveValue(pool: seq<char>, v: SValue): Value
    decreases v, 2
  {
    match v
    case SChild(n) => VNode(Resolve(pool, n))
    case SNone => VNone
    case SSome(n) => VSome(Resolve(pool, n))
    case SItems(items) => VSeq(ResolveItems(pool, items))
    case SName(off, len) => VName(Span(pool, off, len))
    case SText(off, len) => VText(Span(pool, off, len))
    case SInt(k) => VInt(k)
    case SFlag(b) => VFlag(b)
  }

  function ResolveItems(pool: seq<char>, items: List<SNode>): List<Node>
    decreases items, 0
  {
    match items
    case Nil => Nil
    case Cons(n, more) => Cons(Resolve(pool, n), ResolveItems(pool, more))
  }

  /** All spans lie in the first `n` bytes. */
  predicate Within(n: nat, x: SNode)
    decreases x, 1
  {
    WithinSlots(n, x.slots)
  }

  predicate WithinSlots(n: nat, slots: List<SValue>)
    decreases slots, 0
  {
    match slots
    case Nil => true
    case Cons(v, more) => WithinValue(n, v) && WithinSlots(n, more)
  }

  predicate WithinValue(n: nat, v: SValue)
    decreases v, 2
  {
    match v
    case SChild(x) => Within(n, x)
    case SSome(x) => Within(n, x)
    case SItems(items) => WithinItems(n, items)
    case SName(off, len) => off + len <= n
    case SText(off, len) => off + len <= n
    case _ => true
  }

  predicate WithinItems(n: nat, items: List<SNode>)
    decreases items, 0
  {
    match items
    case Nil => true
    case Cons(x, more) => Within(n, x) && WithinItems(n, more)
  }

  // A growing pool leaves every resolved tree as it was.

  lemma {:induction false} NodeStable(pool: seq<char>, pool': seq<char>, x: SNode)
    requires pool <= pool' && Within(|pool|, x)
    ensures Within(|pool'|, x) && Resolve(pool', x) == Resolve(pool, x)
    decreases x, 1
  {
    SlotsStable(pool, pool', x.slots);
  }

  lemma {:induction false} SlotsStable(pool: seq<char>, pool': seq<char>, slots: List<SValue>)
    requires pool <= pool' && WithinSlots(|pool|, slots)
    ensures WithinSlots(|pool'|, slots) && ResolveSlots(pool', slots) == ResolveSlots(pool, slots)
    decreases slots, 0
  {
    if slots.Cons? {
      ValueStable(pool, pool', slots.head);
      SlotsStable(pool, pool', slots.tail);
    }
    hide ResolveValue, WithinValue;
  }

  lemma {:induction false} ValueStable(pool: seq<char>, pool': seq<char>, v: SValue)
    requires pool <= pool' && WithinValue(|pool|, v)
    ensures WithinValue(|pool'|, v) && ResolveValue(pool', v) == ResolveValue(pool, v)
    decreases v, 2
  {
    if v.SChild? || v.SSome? {
      NodeStable(pool, pool', v.node);
    } else if v.SItems? {
      ItemsStable(pool, pool', v.items);
    } else if v.SName? || v.SText? {
      assert pool'[..v.off + v.len] == pool[..v.off + v.len];
    }
    hide From, Resolve, Within, ResolveItems, WithinItems;
  }

  lemma {:induction false} ItemsStable(pool: seq<char>, pool': seq<char>, items: List<SNode>)
    requires pool <= pool' && WithinItems(|pool|, items)
    ensures WithinItems(|pool'|, items) && ResolveItems(pool', items) == ResolveItems(pool, items)
    decreases items, 0
  {
    if items.Cons? {
      NodeStable(pool, pool', items.head);
      ItemsStable(pool, pool', items.tail);
    }
    hide Resolve, Within;
  }

  // ---------------------------------------------------------------- the cursor

  class Reader {
    const text: seq<char>
    var pos: nat
    var pool: seq<char>

    ghost predicate Valid()
      reads this
    {
      pos <= |text|
    }

    ghost function Now(): Text
      reads this
      requires Valid()
    {
      From(text, pos)
    }

    constructor (text: seq<char>)
      ensures Valid() && this.text == text && pos == 0 && pool == []
    {
      this.text, pos, pool := text, 0, [];
    }

    function Left(): nat
      reads this
      requires Valid()
    {
      |text| - pos
    }

    method SkipSpace()
      requires Valid()
      modifies `pos
      ensures Valid() && old(pos) <= pos && Now() == SkipWs(old(Now()))
    {
      while pos < |text| && IsWs(text[pos])
        invariant Valid() && old(pos) <= pos && SkipWs(Now()) == SkipWs(old(Now()))
      {
        pos := pos + 1;
      }
    }

    method PeekIs(c: char) returns (yes: bool)
      requires Valid()
      modifies `pos
      ensures Valid() && old(pos) <= pos && Now() == SkipWs(old(Now()))
      ensures yes == (Now().Cons? && Now().head == c)
    {
      SkipSpace();
      yes := pos < |text| && text[pos] == c;
    }

    method ExpectChar(c: char) returns (ok: bool)
      requires Valid()
      modifies `pos
      ensures Valid() && old(pos) <= pos && (ok ==> old(pos) < pos)
      ensures ok == Expect(c, old(Now())).Good? && (ok ==> Now() == Expect(c, old(Now())).rest)
    {
      SkipSpace();
      ok := pos < |text| && text[pos] == c;
      if ok {
        pos := pos + 1;
      }
    }

    /** A maximal run of non-delimiters, if there is one. */
    method TakeWord() returns (ok: bool, word: Text)
      requires Valid()
      modifies `pos
      ensures Valid() && old(pos) <= pos && (ok ==> old(pos) < pos)
      ensures ok == ReadWord(old(Now())).Good? && (ok ==> ReadWord(old(Now())) == Good(word, Now()))
    {
      SkipSpace();
      ghost var from := pos;
      ghost var start := Now();
      var w := [];
      while pos < |text| && !IsDelim(text[pos])
        invariant Valid() && from <= pos && |w| == pos - from
        invariant Run(start) == Good(Prepend(w, Run(Now()).value), Run(Now()).rest)
      {
        w := w + [text[pos]];
        assert w[..|w| - 1] + [text[pos]] == w;
        pos := pos + 1;
      }
      ok, word := |w| > 0, Prepend(w, Nil);
      assert Run(Now()) == Good(Nil, Now());
      assert |w| == 0 ==> word == Nil;
      PrependCons(w);
    }

    /** One escape, after its backslash. */
    method Unescape() returns (ok: bool, c: char)
      requires Valid()
      modifies `pos
      ensures Valid() && old(pos) <= pos && (ok ==> old(pos) < pos)
      ensures ok == UnescapeOne(old(Now())).Good? && (ok ==> UnescapeOne(old(Now())) == Good(c, Now()))
    {
      ok, c := true, ' ';
      if pos >= |text| {
        return false, c;
      }
      var e := text[pos];
      if e == '\\' || e == '"' {
        c := e;
      } else if e == 'n' {
        c := '\n';
      } else if e == 't' {
        c := '\t';
      } else if e == 'r' {
        c := '\r';
      } else if e == 'x' && pos + 3 <= |text| {
        assert Now().tail == From(text, pos + 1) && Now().tail.tail == From(text, pos + 2);
        var hi, lo := HexValue(text[pos + 1]), HexValue(text[pos + 2]);
        if hi.None? || lo.None? || hi.value >= 16 || lo.value >= 16 {
          return false, c;
        }
        c := (16 * hi.value + lo.value) as char;
        pos := pos + 2;
      } else {
        assert Now().tail == From(text, pos + 1);
        assert e == 'x' && pos + 1 < |text| ==> Now().tail.tail == From(text, pos + 2);
        return false, c;
      }
      pos := pos + 1;
    }

    /** A quoted literal, decoded onto the end of the pool. */
    method ReadStringLit() returns (ok: bool, off: nat, len: nat)
      requires Valid()
      modifies this
      ensures Valid() && old(pos) <= pos && (ok ==> old(pos) < pos) && old(pool) <= pool
      ensures ok == ReadString(old(Now())).Good?
      ensures ok ==> off + len <= |pool| && ReadString(old(Now())) == Good(Span(pool, off, len), Now())
    {
      hide UnescapeOne, SkipWs;
      off, len := |pool|, 0;
      ghost var first := Now();
      ok := ExpectChar('"');
      if !ok {
        return;
      }
      ghost var inside, decoded := Now(), [];
      while true
        invariant Valid() && old(pos) < pos && pool == old(pool) + decoded && off == |old(pool)|
        invariant Unquote(inside) == Puts(decoded, Unquote(Now()))
        decreases |text| - pos
      {
        if pos >= |text| {
          return false, off, len;
        }
        var c := text[pos];
        assert Now() == Cons(c, From(text, pos + 1));
        if c == '"' {
          pos := pos + 1;
          len := |pool| - off;
          SpanIs(old(pool), decoded);
          return true, off, len;
        }
        pos := pos + 1;
        if c == '\\' {
          ok, c := Unescape();
          if !ok {
            return false, off, len;
          }
        }
        PutsSnoc(decoded, c, Unquote(Now()));
        decoded := decoded + [c];
        pool := pool + [c];
      }
    }

    /** Decimal digits, refused before they would leave 64 bits. */
    method ReadUintField() returns (ok: bool, v: nat)
      requires Valid()
      modifies `pos
      ensures Valid() && old(pos) <= pos && (ok ==> old(pos) < pos)
      ensures ok == ReadUint(old(Now())).Good? && (ok ==> ReadUint(old(Now())) == Good(v, Now()))
    {
      hide ReadWord, IsDelim;
      v := 0;
      var word;
      ok, word := TakeWord();
      if !ok {
        return;
      }
      var w := word;
      while w.Cons?
        invariant Decimal(0, word) == Decimal(v, w)
        decreases w
      {
        if !('0' <= w.head <= '9') {
          return false, 0;
        }
        var d := w.head as int - '0' as int;
        if v > (UINT64_MAX - d) / 10 {
          return false, 0;
        }
        v, w := 10 * v + d, w.tail;
      }
    }

    method ReadFlagField() returns (ok: bool, b: bool)
      requires Valid()
      modifies `pos
      ensures Valid() && old(pos) <= pos && (ok ==> old(pos) < pos)
      ensures ok == ReadFlag(old(Now())).Good? && (ok ==> ReadFlag(old(Now())) == Good(b, Now()))
    {
      hide ReadWord;
      b := false;
      var word;
      ok, word := TakeWord();
      if ok {
        b := word == TRUE;
        ok := b || word == FALSE;
      }
    }

    /** The first tag of that name. */
    method LookupTag(s: Schema, w: Text) returns (tag: Option<nat>)
      ensures tag == Lookup(s, w, 0)
    {
      var rest, k := s, 0;
      while rest.Cons?
        invariant Lookup(s, w, 0) == Lookup(rest, w, k)
        decreases rest
      {
        if rest.head.name == w {
          return Some(k);
        }
        rest, k := rest.tail, k + 1;
      }
      tag := None;
    }

    // ---- the productions

    /** What a production promises: the specified outcome, resolved in the pool as it now is. */
    ghost predicate Agrees<T(!new)>(spec: Parsed<T>, ok: bool, value: T)
      reads this
      requires Valid()
    {
      ok == spec.Good? && (ok ==> spec == Good(value, Now()))
    }

    method ParseNode(s: Schema, depth: nat) returns (ok: bool, n: SNode)
      requires Valid()
      modifies this
      ensures Valid() && old(pos) <= pos && (ok ==> old(pos) < pos) && old(pool) <= pool
      ensures ok ==> Within(|pool|, n)
      ensures Agrees(Read(s, old(Now()), depth), ok, Resolve(pool, n))
      decreases Left(), 2
    {
      hide Expect, ReadWord, Lookup, ReadSlots, ResolveSlots, WithinSlots;
      ghost var start := Now();
      n := SNode(0, Nil);
      if depth > MAX_DEPTH {
        return false, n;
      }
      ok := ExpectChar('(');
      if !ok {
        return;
      }
      var word;
      ok, word := TakeWord();
      if !ok {
        return;
      }
      var tag := LookupTag(s, word);
      if tag.None? || Desc(s, tag.value).None? {
        return false, n;
      }
      var slots;
      ok, slots := ParseFields(s, Desc(s, tag.value).value.fields, depth);
      if !ok {
        return;
      }
      ok := ExpectChar(')');
      n := SNode(tag.value, slots);
    }

    /** The fields in schema order, filled one by one. */
    method ParseFields(s: Schema, fields: List<FieldDesc>, depth: nat) returns (ok: bool, slots: List<SValue>)
      requires Valid()
      modifies this
      ensures Valid() && old(pos) <= pos && old(pool) <= pool && (ok ==> WithinSlots(|pool|, slots))
      ensures Agrees(ReadSlots(s, fields, old(Now()), depth), ok, ResolveSlots(pool, slots))
      decreases Left(), 4, fields
    {
      hide SkipWs, ReadValue, ResolveValue, WithinValue;
      ghost var start := Now();
      slots := Nil;
      if fields.Nil? {
        return true, slots;
      }
      var closed := PeekIs(')');
      if closed || pos >= |text| {
        return false, slots;
      }
      SkipTwice(start);
      ReadValueSkips(s, fields.head, start, Now(), depth);
      var v, more;
      ok, v := ParseField(s, fields.head, depth);
      if !ok {
        return;
      }
      ghost var before := pool;
      ok, more := ParseFields(s, fields.tail, depth);
      if ok {
        ValueStable(before, pool, v);
        slots := Cons(v, more);
      }
    }

    method ParseField(s: Schema, f: FieldDesc, depth: nat) returns (ok: bool, v: SValue)
      requires Valid()
      modifies this
      ensures Valid() && old(pos) <= pos && (ok ==> old(pos) < pos) && old(pool) <= pool
      ensures ok ==> WithinValue(|pool|, v)
      ensures Agrees(ReadValue(s, f, old(Now()), depth), ok, ResolveValue(pool, v))
      decreases Left(), 3
    {
      hide Read, ReadOpt, ReadSeq, ReadString, ReadUint, ReadFlag, Resolve, Within, FamilyOf, Accepts, Span;
      v := SNone;
      match f.cls
      case FNode =>
        var n;
        ok, n := ParseNode(s, depth + 1);
        if ok {
          ok := Accepts(f.family, FamilyOf(s, Resolve(pool, n)));
          v := SChild(n);
        }
      case FOpt => ok, v := ParseOpt(s, f.family, depth);
      case FSeq => ok, v := ParseSeq(s, f.family, depth);
      case FName =>
        var off, len;
        ok, off, len := ReadStringLit();
        v := SName(off, len);
      case FText =>
        var off, len;
        ok, off, len := ReadStringLit();
        v := SText(off, len);
      case FInt =>
        var k;
        ok, k := ReadUintField();
        v := SInt(k);
      case FFlag =>
        var b;
        ok, b := ReadFlagField();
        v := SFlag(b);
    }

    method ParseOpt(s: Schema, want: Family, depth: nat) returns (ok: bool, v: SValue)
      requires Valid()
      modifies this
      ensures Valid() && old(pos) <= pos && (ok ==> old(pos) < pos) && old(pool) <= pool
      ensures ok ==> (v.SNone? || v.SSome?) && WithinValue(|pool|, v)
      ensures Agrees(ReadOpt(s, want, old(Now()), depth), ok, ResolveValue(pool, v))
      decreases Left(), 2
    {
      hide Expect, ReadWord, Read, Resolve, Within, FamilyOf, Accepts;
      v := SNone;
      ok := ExpectChar('(');
      if !ok {
        return;
      }
      var word;
      ok, word := TakeWord();
      if !ok {
        return;
      }
      if word == NONE {
        ok := ExpectChar(')');
      } else if word == SOME {
        var n;
        ok, n := ParseNode(s, depth + 1);
        if !ok {
          return;
        }
        ok := ExpectChar(')');
        v := SSome(n);
        ok := ok && Accepts(want, FamilyOf(s, Resolve(pool, n)));
      } else {
        ok := false;
      }
    }

    method ParseSeq(s: Schema, want: Family, depth: nat) returns (ok: bool, v: SValue)
      requires Valid()
      modifies this
      ensures Valid() && old(pos) <= pos && (ok ==> old(pos) < pos) && old(pool) <= pool
      ensures ok ==> v.SItems? && WithinValue(|pool|, v)
      ensures Agrees(ReadSeq(s, want, old(Now()), depth), ok, ResolveValue(pool, v))
      decreases Left(), 2
    {
      hide Expect, ReadWord, ReadItems, ResolveItems, WithinItems, AllAccepted;
      v := SItems(Nil);
      ok := ExpectChar('(');
      if !ok {
        return;
      }
      var word;
      ok, word := TakeWord();
      if !ok || word != SEQ {
        return false, v;
      }
      var items;
      ok, items := ParseItems(s, depth);
      if ok {
        ok := AllAccepted(s, want, ResolveItems(pool, items));
        v := SItems(items);
      }
    }

    method ParseItems(s: Schema, depth: nat) returns (ok: bool, items: List<SNode>)
      requires Valid()
      modifies this
      ensures Valid() && old(pos) <= pos && (ok ==> old(pos) < pos) && old(pool) <= pool
      ensures ok ==> WithinItems(|pool|, items)
      ensures Agrees(ReadItems(s, old(Now()), depth), ok, ResolveItems(pool, items))
      decreases Left(), 3
    {
      hide SkipWs, Read, Resolve, Within;
      ghost var start := Now();
      items := Nil;
      var closed := PeekIs(')');
      if closed {
        pos := pos + 1;
        return true, items;
      }
      SkipTwice(start);
      ReadSkips(s, start, Now(), depth + 1);
      var n, more;
      ok, n := ParseNode(s, depth + 1);
      if !ok {
        return;
      }
      ghost var before := pool;
      ok, more := ParseItems(s, depth);
      if ok {
        NodeStable(before, pool, n);
        items := Cons(n, more);
      }
    }

    /** wok_sexpr_read: one form, and nothing but white space after it. */
    method ReadTop(s: Schema) returns (ok: bool, n: SNode)
      requires Valid() && pos == 0
      modifies this
      ensures Valid() && ok == ReadAll(s, From(text, 0)).Some?
      ensures ok ==> ReadAll(s, From(text, 0)) == Some(Resolve(pool, n))
    {
      hide Read, SkipWs, Resolve, Within;
      ok, n := ParseNode(s, 1);
      if ok {
        SkipSpace();
        ok := pos >= |text|;
      }
    }
  }

  lemma PrependCons(w: seq<char>)
    ensures |w| > 0 ==> Prepend(w, Nil).Cons?
  {
    if |w| > 0 {
      PrependMore(w[..|w| - 1], Cons(w[|w| - 1], Nil));
    }
  }

  lemma {:induction false} PrependMore(w: seq<char>, more: Text)
    requires more.Cons?
    ensures Prepend(w, more).Cons?
  {
    if w != [] {
      PrependMore(w[..|w| - 1], Cons(w[|w| - 1], more));
    }
  }

  /** Decoded bytes in front of what a literal still holds. */
  function Puts(decoded: seq<char>, r: Parsed<Text>): Parsed<Text>
  {
    if r.Good? then Good(Prepend(decoded, r.value), r.rest) else Bad
  }

  lemma PutsSnoc(decoded: seq<char>, c: char, r: Parsed<Text>)
    ensures Puts(decoded, Put(c, r)) == Puts(decoded + [c], r)
  {
    assert (decoded + [c])[..|decoded|] == decoded;
  }

  lemma {:induction false} FromIsPrepend(a: seq<char>, b: seq<char>, more: Text)
    ensures Append(From(a + b, |a|), more) == Prepend(b, more)
    decreases |b|
  {
    if b == [] {
      assert From(a + b, |a|) == Nil;
    } else {
      var n := |b| - 1;
      FromIsPrepend(a, b[..n], Cons(b[n], more));
      FromSnoc(a + b[..n], |a|, b[n], more);
      assert a + b == (a + b[..n]) + [b[n]];
    }
  }

  lemma {:induction false} FromSnoc(a: seq<char>, i: nat, c: char, more: Text)
    requires i <= |a|
    ensures Append(From(a + [c], i), more) == Append(From(a, i), Cons(c, more))
    decreases |a| - i
  {
    if i < |a| {
      FromSnoc(a, i + 1, c, more);
    } else {
      assert From(a + [c], i) == Cons(c, From(a + [c], i + 1));
    }
  }

  lemma {:induction false} AppendNil(t: Text)
    ensures Append(t, Nil) == t
  {
    if t.Cons? {
      AppendNil(t.tail);
    }
  }

  lemma SpanWhole(all: seq<char>, off: nat)
    requires off <= |all|
    ensures Span(all, off, |all| - off) == From(all, off)
  {
    hide From;
    assert all[..|all|] == all;
  }

  lemma SpanIs(pool: seq<char>, decoded: seq<char>)
    ensures Span(pool + decoded, |pool|, |decoded|) == Prepend(decoded, Nil)
  {
    hide *;
    var all := pool + decoded;
    SpanWhole(all, |pool|);
    assert |all| - |pool| == |decoded|;
    FromIsPrepend(pool, decoded, Nil);
    AppendNil(From(all, |pool|));
  }
}
