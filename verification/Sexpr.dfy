/**
  The s-expression dump and its reader (grammar/c/wok_sexpr.c), over any schema: a table of tags,
  each with its fields' classes and the family of child each field demands
  (grammar/c/wok_ast.h:105-156).
*/
module Sexpr {
  import opened Tokens

  type Text = List<char>

  datatype Parsed<T> = Bad | Good(value: T, rest: Text)

  datatype Family = NoFamily | Error | Statement | Expression | BindLhs | PrefixLhs | Pattern | Helper(k: nat)

  datatype FieldClass = FNode | FOpt | FSeq | FName | FText | FInt | FFlag

  datatype FieldDesc = FieldDesc(cls: FieldClass, family: Family)

  datatype TagDesc = TagDesc(name: Text, family: Family, fields: List<FieldDesc>)

  /** The table of tags, in tag order. */
  type Schema = List<TagDesc>

  datatype Node = Node(tag: nat, slots: List<Value>)

  datatype Value =
    | VNode(node: Node) | VNone | VSome(node: Node) | VSeq(items: List<Node>)
    | VName(text: Text) | VText(text: Text) | VInt(num: nat) | VFlag(flag: bool)

  const MAX_DEPTH: nat := 256
  const UINT64_MAX: nat := 0xFFFF_FFFF_FFFF_FFFF

  predicate Accepts(want: Family, got: Family)
  {
    || want == got || got == Error
    || (want == Statement && got == Expression)
    || (want == BindLhs && (got == PrefixLhs || got == Pattern))
  }

  function Desc(s: Schema, tag: nat): Option<TagDesc>
  {
    match s
    case Nil => None
    case Cons(d, more) => if tag == 0 then Some(d) else Desc(more, tag - 1)
  }

  // ---------------------------------------------------------------- characters

  predicate IsWs(c: char)
  {
    c == ' ' || c == '\t' || c == '\n' || c == '\r'
  }

  predicate IsDelim(c: char)
  {
    c == '(' || c == ')' || c == '"' || IsWs(c)
  }

  function Append<T>(xs: List<T>, ys: List<T>): List<T>
  {
    match xs
    case Nil => ys
    case Cons(x, more) => Cons(x, Append(more, ys))
  }

  predicate IsWord(w: Text)
  {
    match w
    case Nil => true
    case Cons(c, more) => !IsDelim(c) && IsWord(more)
  }

  predicate DelimNext(ts: Text)
  {
    ts.Nil? || IsDelim(ts.head)
  }

  const NONE: Text := Cons('n', Cons('o', Cons('n', Cons('e', Nil))))
  const SOME: Text := Cons('s', Cons('o', Cons('m', Cons('e', Nil))))
  const SEQ: Text := Cons('s', Cons('e', Cons('q', Nil)))
  const TRUE: Text := Cons('#', Cons('t', Nil))
  const FALSE: Text := Cons('#', Cons('f', Nil))
  const TOO_DEEP: Text := Cons('!', Cons('d', Cons('e', Cons('p', Cons('t', Cons('h', Nil))))))
  const DEPTH: Text := Cons('(', Cons('!', Cons('d', Cons('e', Cons('p', Cons('t', Cons('h', Cons(')', Nil))))))))

  function HexDigit(n: nat): char
    requires n < 16
  {
    if n < 10 then ('0' as int + n) as char else ('A' as int + n - 10) as char
  }

  function HexValue(c: char): Option<nat>
  {
    if '0' <= c <= '9' then Some(c as int - '0' as int)
    else if 'a' <= c <= 'f' then Some(c as int - 'a' as int + 10)
    else if 'A' <= c <= 'F' then Some(c as int - 'A' as int + 10)
    else None
  }

  // ---------------------------------------------------------------- the dump

  /** One byte of a string literal. */
  function EscapeOne(c: char, rest: Text): Text
  {
    if c == '\\' then Cons('\\', Cons('\\', rest))
    else if c == '"' then Cons('\\', Cons('"', rest))
    else if c == '\n' then Cons('\\', Cons('n', rest))
    else if c == '\t' then Cons('\\', Cons('t', rest))
    else if c == '\r' then Cons('\\', Cons('r', rest))
    else if c as int < 0x20 then
      Cons('\\', Cons('x', Cons(HexDigit(c as int / 16), Cons(HexDigit(c as int % 16), rest))))
    else Cons(c, rest)
  }

  function Escape(t: Text, rest: Text): Text
  {
    match t
    case Nil => rest
    case Cons(c, more) => EscapeOne(c, Escape(more, rest))
  }

  function Quote(t: Text, rest: Text): Text
  {
    Cons('"', Escape(t, Cons('"', rest)))
  }

  /** Decimal digits, in front of `rest`. */
  function Digits(v: nat, rest: Text): Text
  {
    var d := DigitChar(v % 10);
    if v < 10 then Cons(d, rest) else Digits(v / 10, Cons(d, rest))
  }

  function DigitChar(d: nat): char
    requires d < 10
  {
    ('0' as int + d) as char
  }

  function Indent(depth: nat, rest: Text): Text
  {
    if depth == 0 then rest else Cons(' ', Cons(' ', Indent(depth - 1, rest)))
  }

  function NewLine(depth: nat, rest: Text): Text
  {
    Cons('\n', Indent(depth, rest))
  }

  /** Does a tag have a field that holds a child? */
  predicate IsBlock(fields: List<FieldDesc>)
  {
    match fields
    case Nil => false
    case Cons(f, more) => f.cls.FNode? || f.cls.FOpt? || f.cls.FSeq? || IsBlock(more)
  }

  function Dump(s: Schema, n: Node, depth: nat, rest: Text): Text
    decreases n, 1
  {
    if depth > MAX_DEPTH then Append(DEPTH, rest)
    else
      match Desc(s, n.tag)
      case None => rest
      case Some(d) => Cons('(', Append(d.name, DumpSlots(s, n.slots, IsBlock(d.fields), depth, Cons(')', rest))))
  }

  /** A block writes one field a line, one level deeper; a leaf writes its fields on its own line. */
  function DumpSlots(s: Schema, slots: List<Value>, block: bool, depth: nat, rest: Text): Text
    decreases slots, 0
  {
    match slots
    case Nil => rest
    case Cons(v, more) =>
      var after := DumpSlots(s, more, block, depth, rest);
      if block then NewLine(depth + 1, DumpValue(s, v, depth + 1, after))
      else Cons(' ', DumpValue(s, v, depth, after))
  }

  function DumpValue(s: Schema, v: Value, depth: nat, rest: Text): Text
    decreases v, 2
  {
    match v
    case VNode(n) => Dump(s, n, depth, rest)
    case VNone => Cons('(', Append(NONE, Cons(')', rest)))
    case VSome(n) => Cons('(', Append(SOME, NewLine(depth + 1, Dump(s, n, depth + 1, Cons(')', rest)))))
    case VSeq(items) => Cons('(', Append(SEQ, DumpItems(s, items, depth, Cons(')', rest))))
    case VName(t) => Quote(t, rest)
    case VText(t) => Quote(t, rest)
    case VInt(k) => Digits(k, rest)
    case VFlag(b) => Append(if b then TRUE else FALSE, rest)
  }

  function DumpItems(s: Schema, items: List<Node>, depth: nat, rest: Text): Text
    decreases items, 0
  {
    match items
    case Nil => rest
    case Cons(n, more) => NewLine(depth + 1, Dump(s, n, depth + 1, DumpItems(s, more, depth, rest)))
  }

  // ---------------------------------------------------------------- the reader

  function SkipWs(ts: Text): (r: Text)
    ensures Len(r) <= Len(ts)
  {
    if ts.Cons? && IsWs(ts.head) then SkipWs(ts.tail) else ts
  }

  function Expect(c: char, ts: Text): (r: Parsed<bool>)
    ensures r.Good? ==> Len(r.rest) < Len(ts)
  {
    var t := SkipWs(ts);
    if t.Cons? && t.head == c then Good(true, t.tail) else Bad
  }

  function Run(ts: Text): (r: Parsed<Text>)
    ensures r.Good? && Len(r.rest) <= Len(ts) && (r.value.Cons? ==> Len(r.rest) < Len(ts))
  {
    if ts.Cons? && !IsDelim(ts.head) then
      var more := Run(ts.tail);
      Good(Cons(ts.head, more.value), more.rest)
    else Good(Nil, ts)
  }

  function ReadWord(ts: Text): (r: Parsed<Text>)
    ensures r.Good? ==> Len(r.rest) < Len(ts)
  {
    var w := Run(SkipWs(ts));
    if w.value.Nil? then Bad else w
  }

  /** The rest of a string literal, after its opening quote. */
  function Unquote(ts: Text): (r: Parsed<Text>)
    ensures r.Good? ==> Len(r.rest) < Len(ts)
  {
    if ts.Nil? then Bad
    else if ts.head == '"' then Good(Nil, ts.tail)
    else if ts.head == '\\' then
      match UnescapeOne(ts.tail)
      case Bad => Bad
      case Good(c, rest) => Put(c, Unquote(rest))
    else Put(ts.head, Unquote(ts.tail))
  }

  function Put(c: char, r: Parsed<Text>): (p: Parsed<Text>)
    ensures p.Good? ==> r.Good? && p.rest == r.rest
  {
    if r.Good? then Good(Cons(c, r.value), r.rest) else Bad
  }

  /** What a backslash stands before. */
  function UnescapeOne(ts: Text): (r: Parsed<char>)
    ensures r.Good? ==> Len(r.rest) < Len(ts)
  {
    if ts.Nil? then Bad
    else if ts.head == '\\' then Good('\\', ts.tail)
    else if ts.head == '"' then Good('"', ts.tail)
    else if ts.head == 'n' then Good('\n', ts.tail)
    else if ts.head == 't' then Good('\t', ts.tail)
    else if ts.head == 'r' then Good('\r', ts.tail)
    else if ts.head == 'x' && ts.tail.Cons? && ts.tail.tail.Cons? then
      assert Len(ts.tail) == 1 + Len(ts.tail.tail) && Len(ts.tail.tail) == 1 + Len(ts.tail.tail.tail);
      var hi, lo := HexValue(ts.tail.head), HexValue(ts.tail.tail.head);
      if hi.Some? && lo.Some? && hi.value < 16 && lo.value < 16 then
        Good((16 * hi.value + lo.value) as char, ts.tail.tail.tail)
      else Bad
    else Bad
  }

  function ReadString(ts: Text): (r: Parsed<Text>)
    ensures r.Good? ==> Len(r.rest) < Len(ts)
  {
    match Expect('"', ts)
    case Bad => Bad
    case Good(_, rest) => Unquote(rest)
  }

  /** The value of a word of digits on top of `v`, unless it leaves 64 bits. */
  function Decimal(v: nat, w: Text): Option<nat>
    decreases w
  {
    match w
    case Nil => Some(v)
    case Cons(c, more) =>
      if !('0' <= c <= '9') then None
      else
        var d := c as int - '0' as int;
        if v > (UINT64_MAX - d) / 10 then None else Decimal(10 * v + d, more)
  }

  function ReadUint(ts: Text): (r: Parsed<nat>)
    ensures r.Good? ==> Len(r.rest) < Len(ts)
  {
    match ReadWord(ts)
    case Bad => Bad
    case Good(w, rest) => if Decimal(0, w).Some? then Good(Decimal(0, w).value, rest) else Bad
  }

  function ReadFlag(ts: Text): (r: Parsed<bool>)
    ensures r.Good? ==> Len(r.rest) < Len(ts)
  {
    match ReadWord(ts)
    case Bad => Bad
    case Good(w, rest) => if w == TRUE then Good(true, rest) else if w == FALSE then Good(false, rest) else Bad
  }

  /** The first tag with that name, from number `k` on. */
  function Lookup(s: Schema, w: Text, k: nat): Option<nat>
  {
    match s
    case Nil => None
    case Cons(d, more) => if d.name == w then Some(k) else Lookup(more, w, k + 1)
  }

  function FamilyOf(s: Schema, n: Node): Family
  {
    match Desc(s, n.tag)
    case None => NoFamily
    case Some(d) => d.family
  }

  function Read(s: Schema, ts: Text, depth: nat): (r: Parsed<Node>)
    ensures r.Good? ==> Len(r.rest) < Len(ts)
    decreases Len(ts), 0
  {
    if depth > MAX_DEPTH then Bad
    else
      match Expect('(', ts)
      case Bad => Bad
      case Good(_, t1) =>
        match ReadWord(t1)
        case Bad => Bad
        case Good(w, t2) =>
          match Lookup(s, w, 0)
          case None => Bad
          case Some(tag) =>
            match Desc(s, tag)
            case None => Bad
            case Some(d) =>
              match ReadSlots(s, d.fields, t2, depth)
              case Bad => Bad
              case Good(slots, t3) => if Expect(')', t3).Good? then Good(Node(tag, slots), Expect(')', t3).rest)
                else Bad
  }

  /** A missing field is seen at the `)`; a surplus one when the node should close. */
  function ReadSlots(s: Schema, fields: List<FieldDesc>, ts: Text, depth: nat): (r: Parsed<List<Value>>)
    ensures r.Good? ==> Len(r.rest) <= Len(ts)
    decreases Len(ts), 2, fields
  {
    match fields
    case Nil => Good(Nil, ts)
    case Cons(f, more) =>
      if SkipWs(ts).Nil? || SkipWs(ts).head == ')' then Bad
      else
        match ReadValue(s, f, ts, depth)
        case Bad => Bad
        case Good(v, rest) =>
          match ReadSlots(s, more, rest, depth)
          case Bad => Bad
          case Good(vs, rest') => Good(Cons(v, vs), rest')
  }

  function ReadValue(s: Schema, f: FieldDesc, ts: Text, depth: nat): (r: Parsed<Value>)
    ensures r.Good? ==> Len(r.rest) < Len(ts)
    decreases Len(ts), 1
  {
    match f.cls
    case FNode =>
      (match Read(s, ts, depth + 1)
       case Bad => Bad
       case Good(n, rest) => if Accepts(f.family, FamilyOf(s, n)) then Good(VNode(n), rest) else Bad)
    case FOpt => ReadOpt(s, f.family, ts, depth)
    case FSeq => ReadSeq(s, f.family, ts, depth)
    case FName =>
      (match ReadString(ts)
       case Bad => Bad
       case Good(t, rest) => Good(VName(t), rest))
    case FText =>
      (match ReadString(ts)
       case Bad => Bad
       case Good(t, rest) => Good(VText(t), rest))
    case FInt =>
      (match ReadUint(ts)
       case Bad => Bad
       case Good(k, rest) => Good(VInt(k), rest))
    case FFlag =>
      (match ReadFlag(ts)
       case Bad => Bad
       case Good(b, rest) => Good(VFlag(b), rest))
  }

  function ReadOpt(s: Schema, want: Family, ts: Text, depth: nat): (r: Parsed<Value>)
    ensures r.Good? ==> Len(r.rest) < Len(ts)
    decreases Len(ts), 0
  {
    match Expect('(', ts)
    case Bad => Bad
    case Good(_, t1) =>
      match ReadWord(t1)
      case Bad => Bad
      case Good(w, t2) =>
        if w == NONE then (if Expect(')', t2).Good? then Good(VNone, Expect(')', t2).rest) else Bad)
        else if w == SOME then
          match Read(s, t2, depth + 1)
          case Bad => Bad
          case Good(n, t3) =>
            if Expect(')', t3).Good? && Accepts(want, FamilyOf(s, n)) then Good(VSome(n), Expect(')', t3).rest) else Bad
        else Bad
  }

  function ReadSeq(s: Schema, want: Family, ts: Text, depth: nat): (r: Parsed<Value>)
    ensures r.Good? ==> Len(r.rest) < Len(ts)
    decreases Len(ts), 0
  {
    match Expect('(', ts)
    case Bad => Bad
    case Good(_, t1) =>
      match ReadWord(t1)
      case Bad => Bad
      case Good(w, t2) =>
        if w != SEQ then Bad
        else
          match ReadItems(s, t2, depth)
          case Bad => Bad
          case Good(items, t3) => if AllAccepted(s, want, items) then Good(VSeq(items), t3) else Bad
  }

  predicate AllAccepted(s: Schema, want: Family, items: List<Node>)
  {
    match items
    case Nil => true
    case Cons(n, more) => Accepts(want, FamilyOf(s, n)) && AllAccepted(s, want, more)
  }

  /** Nodes up to and past the `)`. */
  function ReadItems(s: Schema, ts: Text, depth: nat): (r: Parsed<List<Node>>)
    ensures r.Good? ==> Len(r.rest) < Len(ts)
    decreases Len(ts), 1
  {
    if Expect(')', ts).Good? then Good(Nil, Expect(')', ts).rest)
    else
      match Read(s, ts, depth + 1)
      case Bad => Bad
      case Good(n, rest) =>
        match ReadItems(s, rest, depth)
        case Bad => Bad
        case Good(more, rest') => Good(Cons(n, more), rest')
  }

  /** wok_sexpr_dump_string and wok_sexpr_read: one form, and nothing after it. */
  function DumpAll(s: Schema, n: Node): Text
  {
    Dump(s, n, 1, Cons('\n', Nil))
  }

  function ReadAll(s: Schema, ts: Text): Option<Node>
  {
    match Read(s, ts, 1)
    case Bad => None
    case Good(n, rest) => if SkipWs(rest).Nil? then Some(n) else None
  }

  // ---------------------------------------------------------------- which trees the schema admits

  /** Tag names are words, and no two tags share one. */
  ghost predicate SchemaOk(s: Schema)
  {
    forall tag: nat | Desc(s, tag).Some? ::
      var d := Desc(s, tag).value; d.name.Cons? && IsWord(d.name) && Lookup(s, d.name, 0) == Some(tag)
  }

  predicate Typed(s: Schema, n: Node)
    decreases n, 1
  {
    Desc(s, n.tag).Some? && TypedSlots(s, Desc(s, n.tag).value.fields, n.slots)
  }

  predicate TypedSlots(s: Schema, fields: List<FieldDesc>, slots: List<Value>)
    decreases slots, 0
  {
    match slots
    case Nil => fields.Nil?
    case Cons(v, more) => fields.Cons? && TypedValue(s, fields.head, v) && TypedSlots(s, fields.tail, more)
  }

  predicate TypedValue(s: Schema, f: FieldDesc, v: Value)
    decreases v, 2
  {
    match f.cls
    case FNode => v.VNode? && Typed(s, v.node) && Accepts(f.family, FamilyOf(s, v.node))
    case FOpt => v.VNone? || (v.VSome? && Typed(s, v.node) && Accepts(f.family, FamilyOf(s, v.node)))
    case FSeq => v.VSeq? && TypedAll(s, v.items) && AllAccepted(s, f.family, v.items)
    case FName => v.VName?
    case FText => v.VText?
    case FInt => v.VInt? && v.num <= UINT64_MAX
    case FFlag => v.VFlag?
  }

  predicate TypedAll(s: Schema, items: List<Node>)
    decreases items, 0
  {
    match items
    case Nil => true
    case Cons(n, more) => Typed(s, n) && TypedAll(s, more)
  }

  /** The dump's own depth count: an optional or listed child stands two levels down. */
  predicate Fits(s: Schema, n: Node, depth: nat)
    decreases n, 1
  {
    && depth <= MAX_DEPTH
    && (Desc(s, n.tag).Some? ==> FitsSlots(s, n.slots, IsBlock(Desc(s, n.tag).value.fields), depth))
  }

  predicate FitsSlots(s: Schema, slots: List<Value>, block: bool, depth: nat)
    decreases slots, 0
  {
    match slots
    case Nil => true
    case Cons(v, more) => FitsValue(s, v, if block then depth + 1 else depth) && FitsSlots(s, more, block, depth)
  }

  predicate FitsValue(s: Schema, v: Value, depth: nat)
    decreases v, 2
  {
    match v
    case VNode(n) => Fits(s, n, depth)
    case VSome(n) => Fits(s, n, depth + 1)
    case VSeq(items) => FitsAll(s, items, depth + 1)
    case _ => true
  }

  predicate FitsAll(s: Schema, items: List<Node>, depth: nat)
    decreases items, 0
  {
    match items
    case Nil => true
    case Cons(n, more) => Fits(s, n, depth) && FitsAll(s, more, depth)
  }

  // ---------------------------------------------------------------- words, strings and numbers

  lemma {:induction false} WordBack(w: Text, rest: Text)
    requires IsWord(w) && DelimNext(rest)
    ensures Run(Append(w, rest)) == Good(w, rest)
  {
    if w.Cons? {
      WordBack(w.tail, rest);
    }
  }

  lemma ReadWordBack(w: Text, rest: Text)
    requires w.Cons? && IsWord(w) && DelimNext(rest)
    ensures ReadWord(Append(w, rest)) == Good(w, rest)
  {
    WordBack(w, rest);
  }

  lemma HexBack(n: nat)
    requires n < 16
    ensures HexValue(HexDigit(n)) == Some(n)
  {
  }

  lemma EscapeOneBack(c: char, rest: Text)
    ensures Unquote(EscapeOne(c, rest)) == Put(c, Unquote(rest))
  {
    if c as int < 0x20 {
      var hi, lo := c as int / 16, c as int % 16;
      HexBack(hi);
      HexBack(lo);
      assert (16 * hi + lo) as char == c;
      var tail := Cons('x', Cons(HexDigit(hi), Cons(HexDigit(lo), rest)));
      assert UnescapeOne(tail) == Good(c, rest);
    }
  }

  lemma {:induction false} QuoteBack(t: Text, rest: Text)
    ensures Unquote(Escape(t, Cons('"', rest))) == Good(t, rest)
  {
    if t.Cons? {
      EscapeOneBack(t.head, Escape(t.tail, Cons('"', rest)));
      QuoteBack(t.tail, rest);
    }
  }

  lemma StringBack(t: Text, rest: Text)
    ensures ReadString(Quote(t, rest)) == Good(t, rest)
  {
    QuoteBack(t, rest);
  }

  lemma {:induction false} DigitsAppend(v: nat, w: Text, rest: Text)
    ensures Digits(v, Append(w, rest)) == Append(Digits(v, w), rest)
    ensures IsWord(w) ==> IsWord(Digits(v, w)) && Digits(v, w).Cons?
    decreases v
  {
    if v >= 10 {
      DigitsAppend(v / 10, Cons(DigitChar(v % 10), w), rest);
    }
  }

  lemma DigitsStep(v: nat, w: Text)
    ensures Digits(v, w) == if v < 10 then Cons(DigitChar(v % 10), w) else Digits(v / 10, Cons(DigitChar(v % 10), w))
  {
  }

  lemma DigitCharIs(d: nat)
    requires d < 10
    ensures '0' <= DigitChar(d) <= '9' && DigitChar(d) as int - '0' as int == d
  {
  }

  lemma DigitFits(q: nat, d: nat)
    requires d < 10 && 10 * q + d <= UINT64_MAX
    ensures q <= (UINT64_MAX - d) / 10
  {
  }

  lemma DecimalStep(q: nat, d: nat, w: Text)
    requires d < 10 && 10 * q + d <= UINT64_MAX
    ensures Decimal(q, Cons(DigitChar(d), w)) == Decimal(10 * q + d, w)
  {
    hide DigitChar;
    DigitCharIs(d);
    DigitFits(q, d);
  }

  lemma {:induction false} DigitsBack(v: nat, w: Text)
    requires v <= UINT64_MAX
    ensures Decimal(0, Digits(v, w)) == Decimal(v, w)
    decreases v
  {
    hide *;
    DigitsStep(v, w);
    DecimalStep(v / 10, v % 10, w);
    if v >= 10 {
      DigitsBack(v / 10, Cons(DigitChar(v % 10), w));
    }
  }

  lemma UintBack(v: nat, rest: Text)
    requires v <= UINT64_MAX && DelimNext(rest)
    ensures ReadUint(Digits(v, rest)) == Good(v, rest)
  {
    DigitsAppend(v, Nil, rest);
    assert Append(Nil, rest) == rest;
    ReadWordBack(Digits(v, Nil), rest);
    DigitsBack(v, Nil);
    hide Digits;
  }

  lemma FlagBack(b: bool, rest: Text)
    requires DelimNext(rest)
    ensures ReadFlag(Append(if b then TRUE else FALSE, rest)) == Good(b, rest)
  {
    var w := if b then TRUE else FALSE;
    assert w.Cons? && !IsDelim(w.head) && w.tail.Cons? && !IsDelim(w.tail.head) && w.tail.tail == Nil;
    assert IsWord(w.tail);
    ReadWordBack(w, rest);
    hide Append, ReadWord;
  }

  // ---------------------------------------------------------------- white space does not matter

  lemma {:induction false} SkipIndent(depth: nat, ts: Text)
    ensures SkipWs(Indent(depth, ts)) == SkipWs(ts)
  {
    if depth > 0 {
      SkipIndent(depth - 1, ts);
      assert SkipWs(Cons(' ', Indent(depth - 1, ts))) == SkipWs(Indent(depth - 1, ts));
    }
  }

  lemma SkipLine(depth: nat, ts: Text)
    ensures SkipWs(NewLine(depth, ts)) == SkipWs(ts)
  {
    SkipIndent(depth, ts);
  }

  lemma {:induction false} SkipTwice(ts: Text)
    ensures SkipWs(SkipWs(ts)) == SkipWs(ts)
  {
    if ts.Cons? && IsWs(ts.head) {
      SkipTwice(ts.tail);
    }
  }

  /** Every production starts by skipping white space. */
  lemma ReadSkips(s: Schema, ts: Text, ts': Text, depth: nat)
    requires SkipWs(ts) == SkipWs(ts')
    ensures Read(s, ts, depth) == Read(s, ts', depth)
  {
    assert Expect('(', ts) == Expect('(', ts');
    hide Expect, ReadWord, Lookup, ReadSlots;
  }

  lemma OptSkips(s: Schema, want: Family, ts: Text, ts': Text, depth: nat)
    requires SkipWs(ts) == SkipWs(ts')
    ensures ReadOpt(s, want, ts, depth) == ReadOpt(s, want, ts', depth)
  {
    assert Expect('(', ts) == Expect('(', ts');
    hide Expect, ReadWord, Read;
  }

  lemma SeqSkips(s: Schema, want: Family, ts: Text, ts': Text, depth: nat)
    requires SkipWs(ts) == SkipWs(ts')
    ensures ReadSeq(s, want, ts, depth) == ReadSeq(s, want, ts', depth)
  {
    assert Expect('(', ts) == Expect('(', ts');
    hide Expect, ReadWord, ReadItems;
  }

  lemma LeafSkips(ts: Text, ts': Text)
    requires SkipWs(ts) == SkipWs(ts')
    ensures ReadString(ts) == ReadString(ts') && ReadUint(ts) == ReadUint(ts') && ReadFlag(ts) == ReadFlag(ts')
  {
    hide SkipWs, Unquote, Decimal, Run;
  }

  lemma ReadValueSkips(s: Schema, f: FieldDesc, ts: Text, ts': Text, depth: nat)
    requires SkipWs(ts) == SkipWs(ts')
    ensures ReadValue(s, f, ts, depth) == ReadValue(s, f, ts', depth)
  {
    hide SkipWs, ReadOpt, ReadSeq, ReadString, ReadUint, ReadFlag, Read, FamilyOf, Accepts;
    if f.cls.FNode? {
      ReadSkips(s, ts, ts', depth + 1);
    } else if f.cls.FOpt? {
      OptSkips(s, f.family, ts, ts', depth);
    } else if f.cls.FSeq? {
      SeqSkips(s, f.family, ts, ts', depth);
    } else {
      LeafSkips(ts, ts');
    }
  }

  // ---------------------------------------------------------------- what is dumped is read back, or refused

  function Outcome<T>(fits: bool, value: T, rest: Text): Parsed<T>
  {
    if fits then Good(value, rest) else Bad
  }

  /** The placeholder past the depth cap names no tag. */
  ghost predicate Closed(s: Schema)
  {
    SchemaOk(s) && Lookup(s, TOO_DEEP, 0).None?
  }

  lemma DumpFirst(s: Schema, n: Node, depth: nat, rest: Text)
    requires Typed(s, n)
    ensures Dump(s, n, depth, rest).Cons? && Dump(s, n, depth, rest).head == '('
  {
  }

  lemma DigitsFirst(v: nat, rest: Text)
    ensures var r := Digits(v, rest); r.Cons? && '0' <= r.head <= '9'
    decreases v
  {
    if v >= 10 {
      DigitsFirst(v / 10, Cons(DigitChar(v % 10), rest));
    }
  }

  lemma ValueFirst(s: Schema, f: FieldDesc, v: Value, depth: nat, rest: Text)
    requires TypedValue(s, f, v)
    ensures var r := DumpValue(s, v, depth, rest); r.Cons? && !IsWs(r.head) && r.head != ')'
  {
    if v.VNode? {
      DumpFirst(s, v.node, depth, rest);
    } else if v.VInt? {
      DigitsFirst(v.num, rest);
    }
    hide Dump, Digits, Typed;
  }

  lemma SlotsDelim(s: Schema, slots: List<Value>, block: bool, depth: nat, rest: Text)
    requires DelimNext(rest)
    ensures DelimNext(DumpSlots(s, slots, block, depth, rest))
  {
    hide DumpValue, Indent;
  }

  lemma Opening(ts: Text)
    ensures Expect('(', Cons('(', ts)) == Good(true, ts) && Expect(')', Cons(')', ts)) == Good(true, ts)
  {
  }

  /** Past the cap the dump writes a placeholder that cannot be read. */
  lemma TooDeepBack(s: Schema, rest: Text, at: nat)
    requires Closed(s)
    ensures Read(s, Append(DEPTH, rest), at) == Bad
  {
    var after := Cons(')', rest);
    assert IsWord(TOO_DEEP.tail.tail.tail) && IsWord(TOO_DEEP.tail.tail.tail.tail.tail);
    assert IsWord(TOO_DEEP);
    ReadWordBack(TOO_DEEP, after);
    Opening(Append(TOO_DEEP, after));
    AppendDeep(rest);
    hide Append, ReadWord, Expect, ReadSlots, SchemaOk;
  }

  lemma AppendDeep(rest: Text)
    ensures Append(DEPTH, rest) == Cons('(', Append(TOO_DEEP, Cons(')', rest)))
  {
    AppendTwice(TOO_DEEP, Cons(')', Nil), rest);
    assert Append(TOO_DEEP, Cons(')', Nil)) == DEPTH.tail by {
      assert Append(TOO_DEEP.tail.tail.tail, Cons(')', Nil)) == DEPTH.tail.tail.tail.tail;
      assert Append(TOO_DEEP.tail, Cons(')', Nil)) == DEPTH.tail.tail;
    }
    assert Append(Cons(')', Nil), rest) == Cons(')', rest) by {
      assert Append(Nil, rest) == rest;
    }
  }

  lemma {:induction false} AppendTwice<T>(xs: List<T>, ys: List<T>, zs: List<T>)
    ensures Append(Append(xs, ys), zs) == Append(xs, Append(ys, zs))
  {
    if xs.Cons? {
      AppendTwice(xs.tail, ys, zs);
    }
  }

  lemma NodeParts(s: Schema, n: Node, slots: Text, at: nat, fits: bool, rest: Text)
    requires SchemaOk(s) && Typed(s, n) && at <= MAX_DEPTH && DelimNext(slots)
    requires ReadSlots(s, Desc(s, n.tag).value.fields, slots, at) == Outcome(fits, n.slots, Cons(')', rest))
    ensures Read(s, Cons('(', Append(Desc(s, n.tag).value.name, slots)), at) == Outcome(fits, n, rest)
  {
    var d := Desc(s, n.tag).value;
    ReadWordBack(d.name, slots);
    Opening(Append(d.name, slots));
    Opening(rest);
    hide ReadSlots, ReadWord, Append, Expect;
  }

  lemma {:induction false} NodeBack(s: Schema, n: Node, depth: nat, at: nat, rest: Text)
    requires Closed(s) && Typed(s, n) && at <= depth
    ensures Read(s, Dump(s, n, depth, rest), at) == Outcome(Fits(s, n, depth), n, rest)
    decreases n, 1
  {
    if depth > MAX_DEPTH {
      TooDeepBack(s, rest, at);
    } else {
      var d := Desc(s, n.tag).value;
      var block := IsBlock(d.fields);
      var slots := DumpSlots(s, n.slots, block, depth, Cons(')', rest));
      SlotsDelim(s, n.slots, block, depth, Cons(')', rest));
      SlotsBack(s, d.fields, n.slots, block, depth, at, Cons(')', rest));
      assert Dump(s, n, depth, rest) == Cons('(', Append(d.name, slots));
      assert Fits(s, n, depth) == FitsSlots(s, n.slots, block, depth);
      hide Dump, DumpSlots, ReadSlots, Read, Append, Typed, Fits, FitsSlots, IsBlock, Closed;
      ClosedOk(s);
      NodeParts(s, n, slots, at, FitsSlots(s, n.slots, block, depth), rest);
    }
  }

  lemma ClosedOk(s: Schema)
    requires Closed(s)
    ensures SchemaOk(s)
  {
  }

  lemma {:induction false} SlotsBack(s: Schema, fields: List<FieldDesc>, slots: List<Value>, block: bool, depth: nat,
                                     at: nat, rest: Text)
    requires Closed(s) && TypedSlots(s, fields, slots) && at <= depth
    requires (IsBlock(fields) ==> block) && DelimNext(rest)
    ensures ReadSlots(s, fields, DumpSlots(s, slots, block, depth, rest), at) ==
            Outcome(FitsSlots(s, slots, block, depth), slots, rest)
    decreases slots, 0
  {
    if slots.Cons? {
      var after := DumpSlots(s, slots.tail, block, depth, rest);
      var dd := if block then depth + 1 else depth;
      SlotsDelim(s, slots.tail, block, depth, rest);
      ValueBack(s, fields.head, slots.head, dd, at, after);
      ValueFirst(s, fields.head, slots.head, dd, after);
      SlotsBack(s, fields.tail, slots.tail, block, depth, at, rest);
      var value := DumpValue(s, slots.head, dd, after);
      var ts := DumpSlots(s, slots, block, depth, rest);
      assert SkipWs(value) == value;
      SkipLine(depth + 1, value);
      assert SkipWs(Cons(' ', value)) == SkipWs(value);
      assert ts == if block then NewLine(depth + 1, value) else Cons(' ', value);
      ReadValueSkips(s, fields.head, ts, value, at);
      hide DumpSlots, DumpValue, ReadValue, SkipWs, TypedValue, FitsValue, NewLine, IsBlock, Closed;
    }
  }

  lemma {:induction false} ValueBack(s: Schema, f: FieldDesc, v: Value, depth: nat, at: nat, rest: Text)
    requires Closed(s) && TypedValue(s, f, v) && DelimNext(rest)
    requires f.cls.FNode? || f.cls.FOpt? || f.cls.FSeq? ==> at + 1 <= depth
    ensures ReadValue(s, f, DumpValue(s, v, depth, rest), at) == Outcome(FitsValue(s, v, depth), v, rest)
    decreases v, 2
  {
    if v.VNode? {
      NodeBack(s, v.node, depth, at + 1, rest);
      hide Dump, Read, Typed, Fits;
    } else if v.VNone? {
      NoneBack(s, f, rest, at);
    } else if v.VSome? {
      SomeBack(s, f, v, depth, at, rest);
    } else if v.VSeq? {
      SeqBack(s, f, v, depth, at, rest);
    } else if v.VName? || v.VText? {
      StringBack(v.text, rest);
      hide ReadString, Quote;
    } else if v.VInt? {
      UintBack(v.num, rest);
      hide ReadUint, Digits;
    } else {
      FlagBack(v.flag, rest);
      hide ReadFlag, Append;
    }
  }

  lemma KeyWords(rest: Text)
    requires DelimNext(rest)
    ensures ReadWord(Append(NONE, rest)) == Good(NONE, rest)
    ensures ReadWord(Append(SOME, rest)) == Good(SOME, rest)
    ensures ReadWord(Append(SEQ, rest)) == Good(SEQ, rest)
    ensures NONE != SOME
  {
    assert IsWord(NONE) by {
      assert IsWord(NONE.tail.tail.tail) && IsWord(NONE.tail.tail);
    }
    assert IsWord(SOME) by {
      assert IsWord(SOME.tail.tail.tail) && IsWord(SOME.tail.tail);
    }
    assert IsWord(SEQ) by {
      assert IsWord(SEQ.tail.tail);
    }
    hide Append, ReadWord;
    ReadWordBack(NONE, rest);
    ReadWordBack(SOME, rest);
    ReadWordBack(SEQ, rest);
  }

  lemma NoneBack(s: Schema, f: FieldDesc, rest: Text, at: nat)
    requires f.cls.FOpt?
    ensures ReadValue(s, f, Cons('(', Append(NONE, Cons(')', rest))), at) == Good(VNone, rest)
  {
    KeyWords(Cons(')', rest));
    Opening(Append(NONE, Cons(')', rest)));
    Opening(rest);
    hide Append, ReadWord, Expect;
  }

  lemma SomeParts(s: Schema, want: Family, line: Text, n: Node, fits: bool, rest: Text, at: nat)
    requires DelimNext(line) && Read(s, line, at + 1) == Outcome(fits, n, Cons(')', rest))
             && Accepts(want, FamilyOf(s, n))
    ensures ReadOpt(s, want, Cons('(', Append(SOME, line)), at) == Outcome(fits, VSome(n), rest)
  {
    KeyWords(line);
    Opening(Append(SOME, line));
    Opening(rest);
    hide Append, ReadWord, Expect, Read, FamilyOf, Accepts, DelimNext;
  }

  lemma SomeLine(s: Schema, v: Value, depth: nat, rest: Text)
    requires v.VSome?
    ensures var child := Dump(s, v.node, depth + 1, Cons(')', rest));
            var line := NewLine(depth + 1, child);
            && DumpValue(s, v, depth, rest) == Cons('(', Append(SOME, line)) && SkipWs(line) == SkipWs(child)
            && DelimNext(line)
  {
    SkipLine(depth + 1, Dump(s, v.node, depth + 1, Cons(')', rest)));
    hide Dump, Append, Indent;
  }

  lemma {:induction false} SomeBack(s: Schema, f: FieldDesc, v: Value, depth: nat, at: nat, rest: Text)
    requires Closed(s) && v.VSome? && f.cls.FOpt? && TypedValue(s, f, v) && at + 1 <= depth
    ensures ReadValue(s, f, DumpValue(s, v, depth, rest), at) == Outcome(FitsValue(s, v, depth), v, rest)
    decreases v, 1
  {
    hide Append, ReadOpt, Dump, DumpValue, Read, SkipWs, Typed, Fits, Closed, Accepts, FamilyOf, NewLine, DelimNext;
    var child := Dump(s, v.node, depth + 1, Cons(')', rest));
    var line := NewLine(depth + 1, child);
    NodeBack(s, v.node, depth + 1, at + 1, Cons(')', rest));
    SomeLine(s, v, depth, rest);
    ReadSkips(s, line, child, at + 1);
    SomeParts(s, f.family, line, v.node, Fits(s, v.node, depth + 1), rest, at);
  }

  lemma SeqParts(s: Schema, want: Family, ts: Text, items: List<Node>, fits: bool, rest: Text, at: nat)
    requires DelimNext(ts) && ReadItems(s, ts, at) == Outcome(fits, items, rest) && AllAccepted(s, want, items)
    ensures ReadSeq(s, want, Cons('(', Append(SEQ, ts)), at) == Outcome(fits, VSeq(items), rest)
  {
    KeyWords(ts);
    Opening(Append(SEQ, ts));
    hide Append, ReadWord, Expect, ReadItems, AllAccepted, DelimNext;
  }

  lemma {:induction false} SeqBack(s: Schema, f: FieldDesc, v: Value, depth: nat, at: nat, rest: Text)
    requires Closed(s) && v.VSeq? && f.cls.FSeq? && TypedValue(s, f, v) && at + 1 <= depth
    ensures ReadValue(s, f, DumpValue(s, v, depth, rest), at) == Outcome(FitsValue(s, v, depth), v, rest)
    decreases v, 1
  {
    var items := DumpItems(s, v.items, depth, Cons(')', rest));
    ItemsBack(s, v.items, depth, at, rest);
    assert DelimNext(items);
    assert DumpValue(s, v, depth, rest) == Cons('(', Append(SEQ, items));
    hide Append, ReadSeq, DumpItems, DumpValue, ReadItems, TypedAll, FitsAll, AllAccepted, Closed;
    SeqParts(s, f.family, items, v.items, FitsAll(s, v.items, depth + 1), rest, at);
  }

  lemma ReadItem(s: Schema, ts: Text, child: Text, n: Node, fits: bool, more: Text, items: List<Node>, all: bool,
                 rest: Text, at: nat)
    requires SkipWs(ts) == child && child.Cons? && child.head == '('
    requires Read(s, child, at + 1) == Outcome(fits, n, more) && ReadItems(s, more, at) == Outcome(all, items, rest)
    ensures ReadItems(s, ts, at) == Outcome(fits && all, Cons(n, items), rest)
  {
    assert Expect(')', ts) == Bad;
    SkipTwice(ts);
    ReadSkips(s, ts, child, at + 1);
    hide Read, Expect, SkipWs;
  }

  lemma ItemsLine(s: Schema, items: List<Node>, depth: nat, rest: Text)
    requires TypedAll(s, items) && items.Cons?
    ensures var more := DumpItems(s, items.tail, depth, rest);
            var child := Dump(s, items.head, depth + 1, more);
            var line := DumpItems(s, items, depth, rest);
            line == NewLine(depth + 1, child) && SkipWs(line) == child && child.Cons? && child.head == '('
  {
    var more := DumpItems(s, items.tail, depth, rest);
    var child := Dump(s, items.head, depth + 1, more);
    DumpFirst(s, items.head, depth + 1, more);
    SkipLine(depth + 1, child);
    hide Dump, NewLine;
  }

  lemma NoItems(s: Schema, depth: nat, at: nat, rest: Text)
    ensures ReadItems(s, DumpItems(s, Nil, depth, Cons(')', rest)), at) == Good(Nil, rest)
    ensures FitsAll(s, Nil, depth + 1)
  {
    Opening(rest);
    hide Expect;
  }

  lemma AllParts(s: Schema, items: List<Node>, depth: nat)
    requires items.Cons?
    ensures TypedAll(s, items) == (Typed(s, items.head) && TypedAll(s, items.tail))
    ensures FitsAll(s, items, depth) == (Fits(s, items.head, depth) && FitsAll(s, items.tail, depth))
  {
  }

  lemma {:induction false} ItemsBack(s: Schema, items: List<Node>, depth: nat, at: nat, rest: Text)
    requires Closed(s) && TypedAll(s, items) && at + 1 <= depth
    ensures ReadItems(s, DumpItems(s, items, depth, Cons(')', rest)), at) ==
            Outcome(FitsAll(s, items, depth + 1), items, rest)
    decreases items, 0
  {
    hide Dump, DumpItems, Read, ReadItems, NewLine, SkipWs, Expect, Typed, Fits, TypedAll, FitsAll, Closed;
    if items.Nil? {
      NoItems(s, depth, at, rest);
    } else {
      var more := DumpItems(s, items.tail, depth, Cons(')', rest));
      var child := Dump(s, items.head, depth + 1, more);
      AllParts(s, items, depth + 1);
      ItemsLine(s, items, depth, Cons(')', rest));
      NodeBack(s, items.head, depth + 1, at + 1, more);
      ItemsBack(s, items.tail, depth, at, rest);
      ReadItem(s, DumpItems(s, items, depth, Cons(')', rest)), child, items.head, Fits(s, items.head, depth + 1), more,
               items.tail, FitsAll(s, items.tail, depth + 1), rest, at);
    }
  }

  // ---------------------------------------------------------------- the theorems

  /**
    A tree of the schema reads back from its dump as itself, to the byte, if and only if the dump
    keeps within the depth cap as the dump counts it.
   */
  lemma DumpRoundTrip(s: Schema, n: Node)
    requires Closed(s) && Typed(s, n)
    ensures ReadAll(s, DumpAll(s, n)) == if Fits(s, n, 1) then Some(n) else None
  {
    NodeBack(s, n, 1, 1, Cons('\n', Nil));
    assert SkipWs(Cons('\n', Nil)) == SkipWs(Nil) == Nil;
    hide Read, Dump, Typed, Fits;
  }

  /** So no two trees within the cap share a dump. */
  lemma DumpInjective(s: Schema, n: Node, m: Node)
    requires Closed(s) && Typed(s, n) && Fits(s, n, 1) && Typed(s, m)
    requires DumpAll(s, n) == DumpAll(s, m)
    ensures n == m
  {
    hide *;
    DumpRoundTrip(s, n);
    DumpRoundTrip(s, m);
  }

  // ---------------------------------------------------------------- trees the reader has room for and the dump has not

  /** The reader's own depth count: every child stands one level down. */
  predicate ReaderFits(n: Node, depth: nat)
    decreases n, 1
  {
    depth <= MAX_DEPTH && ReaderFitsSlots(n.slots, depth + 1)
  }

  predicate ReaderFitsSlots(slots: List<Value>, depth: nat)
    decreases slots, 0
  {
    match slots
    case Nil => true
    case Cons(v, more) => ReaderFitsValue(v, depth) && ReaderFitsSlots(more, depth)
  }

  predicate ReaderFitsValue(v: Value, depth: nat)
    decreases v, 2
  {
    match v
    case VNode(n) => ReaderFits(n, depth)
    case VSome(n) => ReaderFits(n, depth)
    case VSeq(items) => ReaderFitsAll(items, depth)
    case _ => true
  }

  predicate ReaderFitsAll(items: List<Node>, depth: nat)
    decreases items, 0
  {
    match items
    case Nil => true
    case Cons(n, more) => ReaderFits(n, depth) && ReaderFitsAll(more, depth)
  }

  /** One tag, with an optional child of its own family. */
  const OPTIONAL: List<FieldDesc> := Cons(FieldDesc(FOpt, Expression), Nil)
  const CHAIN: Schema := Cons(TagDesc(Cons('n', Nil), Expression, OPTIONAL), Nil)

  function Nested(k: nat): Node
  {
    Node(0, Cons(if k == 0 then VNone else VSome(Nested(k - 1)), Nil))
  }

  lemma ChainClosed()
    ensures Closed(CHAIN) && Desc(CHAIN, 0) == Some(CHAIN.head) && IsBlock(OPTIONAL)
  {
    assert IsWord(CHAIN.head.name);
    assert Lookup(CHAIN, CHAIN.head.name, 0) == Some(0);
    forall tag: nat | tag > 0
      ensures Desc(CHAIN, tag) == None
    {
      assert Desc(CHAIN, tag) == Desc(CHAIN.tail, tag - 1);
    }
    assert Lookup(CHAIN, TOO_DEEP, 0) == Lookup(CHAIN.tail, TOO_DEEP, 1);
  }

  lemma {:induction false} NestedTyped(k: nat)
    ensures Typed(CHAIN, Nested(k))
  {
    ChainClosed();
    assert TypedSlots(CHAIN, Nil, Nil);
    if k > 0 {
      NestedTyped(k - 1);
      assert FamilyOf(CHAIN, Nested(k - 1)) == Expression;
    }
  }

  lemma {:induction false} NestedDepth(k: nat, depth: nat)
    ensures Fits(CHAIN, Nested(k), depth) <==> depth + 2 * k <= MAX_DEPTH
    ensures ReaderFits(Nested(k), depth) <==> depth + k <= MAX_DEPTH
  {
    ChainClosed();
    var slots := Nested(k).slots;
    assert FitsSlots(CHAIN, Nil, true, depth) && ReaderFitsSlots(Nil, depth + 1);
    assert FitsSlots(CHAIN, slots, true, depth) == FitsValue(CHAIN, slots.head, depth + 1);
    assert ReaderFitsSlots(slots, depth + 1) == ReaderFitsValue(slots.head, depth + 1);
    if k > 0 {
      NestedDepth(k - 1, depth + 2);
      NestedDepth(k - 1, depth + 1);
      assert FitsValue(CHAIN, slots.head, depth + 1) == Fits(CHAIN, Nested(k - 1), depth + 2);
    }
  }

  /** A nest of 128 to 255 optional children is within the cap as the reader counts, and is lost all the same. */
  lemma DepthMismatch(k: nat)
    ensures Closed(CHAIN) && Typed(CHAIN, Nested(k))
    ensures ReaderFits(Nested(k), 1) <==> k <= 255
    ensures ReadAll(CHAIN, DumpAll(CHAIN, Nested(k))) == if k <= 127 then Some(Nested(k)) else None
  {
    ChainClosed();
    NestedTyped(k);
    NestedDepth(k, 1);
    DumpRoundTrip(CHAIN, Nested(k));
    hide *;
  }

  // ---------------------------------------------------------------- what is read is a tree of the schema

  lemma {:induction false} ReadSound(s: Schema, ts: Text, depth: nat)
    requires Read(s, ts, depth).Good?
    ensures Typed(s, Read(s, ts, depth).value) && ReaderFits(Read(s, ts, depth).value, depth)
    decreases Len(ts), 0
  {
    var t2 := ReadWord(Expect('(', ts).rest).rest;
    var tag := Lookup(s, ReadWord(Expect('(', ts).rest).value, 0).value;
    ReadSlotsSound(s, Desc(s, tag).value.fields, t2, depth);
    hide ReadSlots, ReadWord, Expect, Lookup, Desc;
  }

  lemma {:induction false} ReadSlotsSound(s: Schema, fields: List<FieldDesc>, ts: Text, depth: nat)
    requires ReadSlots(s, fields, ts, depth).Good?
    ensures var slots := ReadSlots(s, fields, ts, depth).value;
            TypedSlots(s, fields, slots) && ReaderFitsSlots(slots, depth + 1)
    decreases Len(ts), 2, fields
  {
    if fields.Cons? {
      ReadValueSound(s, fields.head, ts, depth);
      ReadSlotsSound(s, fields.tail, ReadValue(s, fields.head, ts, depth).rest, depth);
    }
    hide ReadValue, TypedValue, ReaderFitsValue, SkipWs;
  }

  lemma {:induction false} ReadValueSound(s: Schema, f: FieldDesc, ts: Text, depth: nat)
    requires ReadValue(s, f, ts, depth).Good?
    ensures var v := ReadValue(s, f, ts, depth).value; TypedValue(s, f, v) && ReaderFitsValue(v, depth + 1)
    decreases Len(ts), 1
  {
    if f.cls.FNode? {
      ReadSound(s, ts, depth + 1);
    } else if f.cls.FOpt? {
      ReadOptSound(s, f, ts, depth);
    } else if f.cls.FSeq? {
      ReadSeqSound(s, f, ts, depth);
    } else if f.cls.FInt? {
      UintSound(ts);
    }
    hide Read, ReadOpt, ReadSeq, ReadString, ReadUint, ReadFlag, Typed, ReaderFits, Accepts;
  }

  lemma {:induction false} ReadOptSound(s: Schema, f: FieldDesc, ts: Text, depth: nat)
    requires f.cls.FOpt? && ReadOpt(s, f.family, ts, depth).Good?
    ensures var v := ReadOpt(s, f.family, ts, depth).value; TypedValue(s, f, v) && ReaderFitsValue(v, depth + 1)
    decreases Len(ts), 0
  {
    var w := ReadWord(Expect('(', ts).rest);
    if w.value != NONE {
      ReadSound(s, w.rest, depth + 1);
    }
    hide Read, ReadWord, Expect, Typed, ReaderFits, Accepts;
  }

  lemma {:induction false} ReadSeqSound(s: Schema, f: FieldDesc, ts: Text, depth: nat)
    requires f.cls.FSeq? && ReadSeq(s, f.family, ts, depth).Good?
    ensures var v := ReadSeq(s, f.family, ts, depth).value; TypedValue(s, f, v) && ReaderFitsValue(v, depth + 1)
    decreases Len(ts), 0
  {
    ReadItemsSound(s, ReadWord(Expect('(', ts).rest).rest, depth);
    hide ReadItems, ReadWord, Expect, TypedAll, ReaderFitsAll, AllAccepted;
  }

  lemma {:induction false} ReadItemsSound(s: Schema, ts: Text, depth: nat)
    requires ReadItems(s, ts, depth).Good?
    ensures var items := ReadItems(s, ts, depth).value; TypedAll(s, items) && ReaderFitsAll(items, depth + 1)
    decreases Len(ts), 1
  {
    if !Expect(')', ts).Good? {
      ReadSound(s, ts, depth + 1);
      ReadItemsSound(s, Read(s, ts, depth + 1).rest, depth);
    }
    hide Read, Expect, Typed, ReaderFits;
  }

  lemma {:induction false} DecimalSound(v: nat, w: Text)
    requires v <= UINT64_MAX && Decimal(v, w).Some?
    ensures Decimal(v, w).value <= UINT64_MAX
    decreases w
  {
    if w.Cons? {
      DecimalSound(10 * v + (w.head as int - '0' as int), w.tail);
    }
  }

  lemma UintSound(ts: Text)
    requires ReadUint(ts).Good?
    ensures ReadUint(ts).value <= UINT64_MAX
  {
    DecimalSound(0, ReadWord(ts).value);
  }

  /**
    Whatever text the reader accepts, what it returns is a tree of the schema within the reader's depth cap. Dumping
    that tree and reading it again changes nothing, if the dump keeps within its own cap.
   */
  lemma ReadIsTyped(s: Schema, ts: Text)
    requires ReadAll(s, ts).Some?
    ensures var n := ReadAll(s, ts).value;
            && Typed(s, n) && ReaderFits(n, 1)
            && (Closed(s) ==> ReadAll(s, DumpAll(s, n)) == if Fits(s, n, 1) then Some(n) else None)
  {
    ReadSound(s, ts, 1);
    var n := ReadAll(s, ts).value;
    hide Read, Typed, ReaderFits, Fits, DumpAll, Closed;
    if Closed(s) {
      DumpRoundTrip(s, n);
    }
  }

  // ---------------------------------------------------------------- how the dump is laid out

  function Blanks(ts: Text): nat
  {
    if ts.Cons? && ts.head == ' ' then 1 + Blanks(ts.tail) else 0
  }

  /** Outside strings brackets pair up, and every line stands two blanks right of each bracket open around it. */
  predicate Lined(open: nat, ts: Text)
    decreases ts
  {
    if ts.Nil? then open == 0
    else if ts.head == '(' then Lined(open + 1, ts.tail)
    else if ts.head == ')' then open > 0 && Lined(open - 1, ts.tail)
    else if ts.head == '"' then LinedString(open, ts.tail)
    else if ts.head == '\n' then (open > 0 ==> Blanks(ts.tail) == 2 * (open + 1)) && Lined(open, ts.tail)
    else Lined(open, ts.tail)
  }

  predicate LinedString(open: nat, ts: Text)
    decreases ts
  {
    if ts.Nil? then false
    else if ts.head == '"' then Lined(open, ts.tail)
    else if ts.head == '\\' then ts.tail.Cons? && LinedString(open, ts.tail.tail)
    else ts.head != '\n' && LinedString(open, ts.tail)
  }

  lemma {:induction false} LinedWord(open: nat, w: Text, rest: Text)
    requires IsWord(w)
    ensures Lined(open, Append(w, rest)) == Lined(open, rest)
  {
    if w.Cons? {
      LinedWord(open, w.tail, rest);
    }
  }

  lemma {:induction false} LinedDigits(open: nat, v: nat, rest: Text)
    ensures Lined(open, Digits(v, rest)) == Lined(open, rest)
  {
    DigitsAppend(v, Nil, rest);
    assert Append(Nil, rest) == rest;
    LinedWord(open, Digits(v, Nil), rest);
    hide Digits, Lined;
  }

  lemma HexPlain(n: nat)
    requires n < 16
    ensures HexDigit(n) != '"' && HexDigit(n) != '\\' && HexDigit(n) != '\n'
  {
  }

  lemma LinedEscape(open: nat, c: char, rest: Text)
    ensures LinedString(open, EscapeOne(c, rest)) == LinedString(open, rest)
  {
    if c as int < 0x20 {
      var hi, lo := HexDigit(c as int / 16), HexDigit(c as int % 16);
      HexPlain(c as int / 16);
      HexPlain(c as int % 16);
      assert LinedString(open, Cons(lo, rest)) == LinedString(open, rest);
      assert LinedString(open, Cons(hi, Cons(lo, rest))) == LinedString(open, Cons(lo, rest));
    }
    hide HexDigit;
  }

  lemma {:induction false} LinedQuote(open: nat, t: Text, rest: Text)
    ensures LinedString(open, Escape(t, Cons('"', rest))) == Lined(open, rest)
  {
    if t.Cons? {
      LinedEscape(open, t.head, Escape(t.tail, Cons('"', rest)));
      LinedQuote(open, t.tail, rest);
    }
    hide EscapeOne;
  }

  lemma {:induction false} LinedIndent(open: nat, depth: nat, ts: Text)
    ensures Lined(open, Indent(depth, ts)) == Lined(open, ts)
    ensures Blanks(Indent(depth, ts)) == 2 * depth + Blanks(ts)
  {
    if depth > 0 {
      LinedIndent(open, depth - 1, ts);
      assert Lined(open, Cons(' ', Indent(depth - 1, ts))) == Lined(open, Indent(depth - 1, ts));
      assert Blanks(Cons(' ', Indent(depth - 1, ts))) == 1 + Blanks(Indent(depth - 1, ts));
    }
  }

  /** A line one level inside the brackets open around it. */
  lemma LinedLine(open: nat, ts: Text)
    requires open > 0 && ts.Cons? && ts.head != ' '
    ensures Lined(open, NewLine(open + 1, ts)) == Lined(open, ts)
  {
    LinedIndent(open, open + 1, ts);
    hide Indent;
  }

  lemma {:induction false} NodeLined(s: Schema, n: Node, depth: nat, rest: Text)
    requires SchemaOk(s) && Typed(s, n) && depth > 0
    ensures Lined(depth - 1, Dump(s, n, depth, rest)) == Lined(depth - 1, rest)
    decreases n, 1
  {
    if depth > MAX_DEPTH {
      AppendDeep(rest);
      assert IsWord(TOO_DEEP.tail.tail.tail) && IsWord(TOO_DEEP.tail.tail.tail.tail.tail);
      assert IsWord(TOO_DEEP);
      LinedWord(depth, TOO_DEEP, Cons(')', rest));
      hide Append;
    } else {
      var d := Desc(s, n.tag).value;
      var slots := DumpSlots(s, n.slots, IsBlock(d.fields), depth, Cons(')', rest));
      LinedWord(depth, d.name, slots);
      SlotsLined(s, d.fields, n.slots, IsBlock(d.fields), depth, Cons(')', rest));
      hide Append, DumpSlots, IsBlock;
    }
  }

  lemma {:induction false} SlotsLined(s: Schema, fields: List<FieldDesc>, slots: List<Value>, block: bool, depth: nat,
                                      rest: Text)
    requires SchemaOk(s) && TypedSlots(s, fields, slots) && depth > 0 && (IsBlock(fields) ==> block)
    ensures Lined(depth, DumpSlots(s, slots, block, depth, rest)) == Lined(depth, rest)
    decreases slots, 0
  {
    if slots.Cons? {
      var after := DumpSlots(s, slots.tail, block, depth, rest);
      SlotsLined(s, fields.tail, slots.tail, block, depth, rest);
      var value := DumpValue(s, slots.head, if block then depth + 1 else depth, after);
      ValueFirst(s, fields.head, slots.head, if block then depth + 1 else depth, after);
      ValueLined(s, fields.head, slots.head, if block then depth + 1 else depth, depth, after);
      LinedLine(depth, value);
      assert Lined(depth, Cons(' ', value)) == Lined(depth, value);
      hide DumpValue, NewLine, TypedValue, SchemaOk;
    }
  }

  lemma {:induction false} ValueLined(s: Schema, f: FieldDesc, v: Value, depth: nat, open: nat, rest: Text)
    requires SchemaOk(s) && TypedValue(s, f, v) && open > 0
    requires f.cls.FNode? || f.cls.FOpt? || f.cls.FSeq? ==> depth == open + 1
    ensures Lined(open, DumpValue(s, v, depth, rest)) == Lined(open, rest)
    decreases v, 2
  {
    if v.VNode? {
      NodeLined(s, v.node, depth, rest);
    } else if v.VNone? || v.VSome? {
      OptLined(s, f, v, open, rest);
    } else if v.VSeq? {
      SeqLined(s, f, v, open, rest);
    } else if v.VInt? {
      LinedDigits(open, v.num, rest);
    } else if v.VFlag? {
      FlagLined(open, v.flag, rest);
    } else {
      LinedQuote(open, v.text, rest);
    }
    hide Dump, Digits, Escape, DumpItems, Append, NewLine, Typed, SchemaOk;
  }

  lemma FlagLined(open: nat, b: bool, rest: Text)
    ensures Lined(open, Append(if b then TRUE else FALSE, rest)) == Lined(open, rest)
  {
    var w := if b then TRUE else FALSE;
    assert IsWord(w.tail);
    LinedWord(open, w, rest);
    hide Append;
  }

  lemma {:induction false} OptLined(s: Schema, f: FieldDesc, v: Value, open: nat, rest: Text)
    requires SchemaOk(s) && f.cls.FOpt? && TypedValue(s, f, v) && open > 0
    ensures Lined(open, DumpValue(s, v, open + 1, rest)) == Lined(open, rest)
    decreases v, 1
  {
    assert IsWord(NONE.tail.tail.tail) && IsWord(NONE.tail.tail);
    assert IsWord(SOME.tail.tail.tail) && IsWord(SOME.tail.tail);
    if v.VNone? {
      LinedWord(open + 1, NONE, Cons(')', rest));
    } else {
      var child := Dump(s, v.node, open + 2, Cons(')', rest));
      DumpFirst(s, v.node, open + 2, Cons(')', rest));
      NodeLined(s, v.node, open + 2, Cons(')', rest));
      LinedLine(open + 1, child);
      LinedWord(open + 1, SOME, NewLine(open + 2, child));
    }
    hide Dump, Append, NewLine, Typed, SchemaOk;
  }

  lemma {:induction false} SeqLined(s: Schema, f: FieldDesc, v: Value, open: nat, rest: Text)
    requires SchemaOk(s) && f.cls.FSeq? && TypedValue(s, f, v) && v.VSeq? && open > 0
    ensures Lined(open, DumpValue(s, v, open + 1, rest)) == Lined(open, rest)
    decreases v, 1
  {
    assert IsWord(SEQ.tail.tail);
    var items := DumpItems(s, v.items, open + 1, Cons(')', rest));
    ItemsLined(s, v.items, open + 1, Cons(')', rest));
    LinedWord(open + 1, SEQ, items);
    hide DumpItems, Append, TypedAll, SchemaOk, AllAccepted;
  }

  lemma {:induction false} ItemsLined(s: Schema, items: List<Node>, depth: nat, rest: Text)
    requires SchemaOk(s) && TypedAll(s, items) && depth > 0
    ensures Lined(depth, DumpItems(s, items, depth, rest)) == Lined(depth, rest)
    decreases items, 0
  {
    if items.Cons? {
      var more := DumpItems(s, items.tail, depth, rest);
      var child := Dump(s, items.head, depth + 1, more);
      ItemsLined(s, items.tail, depth, rest);
      NodeLined(s, items.head, depth + 1, more);
      DumpFirst(s, items.head, depth + 1, more);
      LinedLine(depth, child);
      hide Dump, NewLine, SchemaOk, Typed;
    }
  }

  /** The whole dump is laid out by its brackets, whatever strings it holds. */
  lemma DumpLined(s: Schema, n: Node)
    requires SchemaOk(s) && Typed(s, n)
    ensures Lined(0, DumpAll(s, n))
  {
    NodeLined(s, n, 1, Cons('\n', Nil));
    assert Lined(0, Nil) && Lined(0, Cons('\n', Nil));
    hide Dump, Typed;
  }
}
