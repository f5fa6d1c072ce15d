/**
  The layout filter (grammar/c/wok_layout.c): one pass over a token stream that adds
  NEWLINE, INDENT and DEDENT by column. `Filter` is the buffer, the column stack and the
  loop of the source; `Step` and `Run` say what they compute.
*/
module Layout {

  const MAX_DEPTH: nat := 64

  /** `Lead` and `Item` keep the finer token kind; every closer is a continuation lead and no opener is. */
  datatype Kind = Eof | Newline | Indent | Dedent | Open | Close | Lead(k: nat) | Item(k: nat)

  datatype Tok = Tok(off: nat, len: nat, col: nat, kind: Kind, first: bool)

  datatype Code = LayBracket | LayDedent | LayDepth

  datatype Fault = Fault(code: Code, off: nat)

  predicate IsLead(t: Tok)
  {
    t.kind.Close? || t.kind.Lead?
  }

  predicate IsLayout(t: Tok)
  {
    t.kind.Newline? || t.kind.Indent? || t.kind.Dedent?
  }

  /** A layout token at the place of `at`. */
  function Mark(k: Kind, at: Tok): Tok
  {
    Tok(at.off, 0, at.col, k, false)
  }

  /** What the scanner delivers: columns from 1, no layout token, and one EOF, at the end. */
  ghost predicate Scanned(ts: seq<Tok>)
  {
    && |ts| > 0
    && (forall i: nat | i < |ts| :: ts[i].col >= 1 && !IsLayout(ts[i]) && (ts[i].kind.Eof? <==> i == |ts| - 1))
  }

  // ---------------------------------------------------------------- one token

  /** The open columns outermost first, and the bracket bookkeeping. */
  datatype State = State(stack: seq<nat>, bracket: nat, blockCol: nat, openOff: nat, firstLogical: bool)

  const START := State([1], 0, 0, 0, true)

  function Top(stack: seq<nat>): nat
    requires |stack| > 0
  {
    stack[|stack| - 1]
  }

  function PopTo(stack: seq<nat>, c: nat): (r: seq<nat>)
    requires |stack| > 0
    ensures 0 < |r| <= |stack|
  {
    if |stack| > 1 && Top(stack) > c then PopTo(stack[..|stack| - 1], c) else stack
  }

  lemma {:induction false} PopFacts(stack: seq<nat>, c: nat)
    requires |stack| > 0
    ensures PopTo(stack, c) == stack[..|PopTo(stack, c)|]
    ensures |PopTo(stack, c)| == 1 || Top(PopTo(stack, c)) <= c
    decreases |stack|
  {
    if |stack| > 1 && Top(stack) > c {
      PopFacts(stack[..|stack| - 1], c);
    }
  }

  function Marks(k: Kind, at: Tok, n: nat): (r: seq<Tok>)
    ensures |r| == n
  {
    if n == 0 then [] else [Mark(k, at)] + Marks(k, at, n - 1)
  }

  /** What one token makes the filter write before it: a NEWLINE or not, DEDENTs, an INDENT or not. */
  datatype LineOut = LineOut(stack: seq<nat>, newline: bool, pops: nat, indent: bool, faults: seq<Fault>)

  function Write(l: LineOut, t: Tok): seq<Tok>
  {
    NewlineIf(l.newline, t) + Marks(Dedent, t, l.pops) + IndentIf(l.indent, t)
  }

  /** A line start outside brackets: rules L3 to L6. */
  function LineStart(stack: seq<nat>, firstLogical: bool, t: Tok): (r: LineOut)
    requires |stack| > 0
    ensures |r.stack| > 0
  {
    var popped := PopTo(stack, t.col);
    var pops := |stack| - |popped|;
    if IsLead(t) then LineOut(popped, false, pops, false, [])
    else if t.col > Top(stack) then
      if |stack| >= MAX_DEPTH then LineOut(stack, !firstLogical, 0, false, [Fault(LayDepth, t.off)])
      else LineOut(stack + [t.col], !firstLogical, 0, true, [])
    else if t.col < Top(stack) then
      if Top(popped) == t.col then LineOut(popped, !firstLogical, pops, false, [])
      else if |popped| < MAX_DEPTH then
        LineOut(popped + [t.col], !firstLogical, pops, true, [Fault(LayDedent, t.off)])
      else LineOut(popped, !firstLogical, pops, false, [Fault(LayDedent, t.off)])
    else LineOut(stack, !firstLogical, 0, false, [])
  }

  /** An item at or left of the column that was current when the group opened cannot be inside it. */
  predicate Abandons(st: State, t: Tok)
  {
    t.first && st.bracket > 0 && !IsLead(t) && t.col <= st.blockCol
  }

  /** The bracket state after the line start of `t`. */
  function AfterAbandon(st: State, t: Tok): State
  {
    if Abandons(st, t) then st.(bracket := 0) else st
  }

  /** Does `t` begin a line outside brackets? */
  predicate StartsLine(st: State, t: Tok)
  {
    t.first && AfterAbandon(st, t).bracket == 0
  }

  /** L8: the last NEWLINE, and a DEDENT for every open level. */
  function AtEof(st: State): (r: LineOut)
    requires |st.stack| > 0
    ensures |r.stack| > 0
  {
    var popped := PopTo(st.stack, 0);
    LineOut(popped, !st.firstLogical, |st.stack| - |popped|, false,
            if st.bracket > 0 then [Fault(LayBracket, st.openOff)] else [])
  }

  /** Everything that happens before `t` itself is written. */
  function LineOf(st: State, t: Tok): (r: LineOut)
    requires |st.stack| > 0
    ensures |r.stack| > 0
  {
    if t.kind.Eof? then AtEof(st)
    else if StartsLine(st, t) then LineStart(st.stack, st.firstLogical, t)
    else LineOut(st.stack, false, 0, false, [])
  }

  /** How an opener or a closer moves a bracket depth; a closer too many is passed over. */
  function BracketOne(d: nat, t: Tok): nat
  {
    if t.kind.Open? then d + 1 else if t.kind.Close? && d > 0 then d - 1 else d
  }

  /** The outermost opener fixes the column that decides abandonment. */
  function Brackets(st: State, stack: seq<nat>, t: Tok): State
    requires |stack| > 0
  {
    var outermost := t.kind.Open? && st.bracket == 0;
    State(stack, BracketOne(st.bracket, t), if outermost then Top(stack) else st.blockCol,
          if outermost then t.off else st.openOff, st.firstLogical && !(t.first && st.bracket == 0))
  }

  datatype StepOut = StepOut(st: State, out: seq<Tok>, faults: seq<Fault>)

  function Step(st: State, t: Tok): (r: StepOut)
    requires |st.stack| > 0
    ensures r.st.stack == LineOf(st, t).stack && r.out == Write(LineOf(st, t), t) + [t]
  {
    var l := LineOf(st, t);
    if t.kind.Eof? then StepOut(st.(stack := l.stack), Write(l, t) + [t], l.faults)
    else
      var abandoned := if Abandons(st, t) then [Fault(LayBracket, st.openOff)] else [];
      StepOut(Brackets(AfterAbandon(st, t), l.stack, t), Write(l, t) + [t], abandoned + l.faults)
  }

  /** The first `k` tokens. */
  function Run(ts: seq<Tok>, k: nat): (r: StepOut)
    requires k <= |ts|
    ensures |r.st.stack| > 0
  {
    if k == 0 then StepOut(START, [], [])
    else
      var before := Run(ts, k - 1);
      var s := Step(before.st, ts[k - 1]);
      StepOut(s.st, before.out + s.out, before.faults + s.faults)
  }

  function Output(ts: seq<Tok>): seq<Tok>
  {
    Run(ts, |ts|).out
  }

  function Faults(ts: seq<Tok>): seq<Fault>
  {
    Run(ts, |ts|).faults
  }

  // ---------------------------------------------------------------- the reachable states

  /** Open columns strictly increase from 1 and stay within the depth cap. */
  ghost predicate Sound(stack: seq<nat>)
  {
    && 0 < |stack| <= MAX_DEPTH
    && stack[0] == 1
    && forall i: nat, j: nat | i < j < |stack| :: stack[i] < stack[j]
  }

  lemma PushSound(stack: seq<nat>, c: nat)
    requires Sound(stack) && |stack| < MAX_DEPTH && c > Top(stack)
    ensures Sound(stack + [c])
  {
  }

  lemma PopSound(stack: seq<nat>, c: nat)
    requires Sound(stack)
    ensures Sound(PopTo(stack, c))
    ensures c >= 1 ==> Top(PopTo(stack, c)) <= c
    ensures c == 0 ==> PopTo(stack, c) == [1]
  {
    var r := PopTo(stack, c);
    PopFacts(stack, c);
    assert r[0] == 1;
    assert |r| == 1 ==> r == [1];
    assert |r| > 1 ==> r[0] < Top(r);
  }

  lemma LineStartSound(stack: seq<nat>, firstLogical: bool, t: Tok)
    requires Sound(stack) && t.col >= 1
    ensures Sound(LineStart(stack, firstLogical, t).stack)
  {
    var popped := PopTo(stack, t.col);
    PopSound(stack, t.col);
    if t.col > Top(stack) && |stack| < MAX_DEPTH {
      PushSound(stack, t.col);
    }
    if Top(popped) < t.col && |popped| < MAX_DEPTH {
      PushSound(popped, t.col);
    }
  }

  lemma LineSound(st: State, t: Tok)
    requires Sound(st.stack) && t.col >= 1
    ensures Sound(LineOf(st, t).stack)
  {
    LineStartSound(st.stack, st.firstLogical, t);
    PopSound(st.stack, 0);
  }

  lemma {:induction false} RunSound(ts: seq<Tok>, k: nat)
    requires k <= |ts| && forall i: nat | i < |ts| :: ts[i].col >= 1
    ensures Sound(Run(ts, k).st.stack)
  {
    hide Step, LineOf, PopTo;
    if k > 0 {
      RunSound(ts, k - 1);
      RunStep(ts, k);
      LineSound(Run(ts, k - 1).st, ts[k - 1]);
    }
  }

  lemma RunStep(ts: seq<Tok>, k: nat)
    requires 0 < k <= |ts|
    ensures var p := Run(ts, k - 1);
            && Run(ts, k).st == Step(p.st, ts[k - 1]).st
            && Run(ts, k).out == p.out + Step(p.st, ts[k - 1]).out
            && Run(ts, k).faults == p.faults + Step(p.st, ts[k - 1]).faults
  {
  }

  // ---------------------------------------------------------------- balance

  /** Reads a stream back: INDENT must exceed the enclosing column within the cap, DEDENT must have a level to close. */
  function Nest(cols: seq<nat>, out: seq<Tok>): (r: seq<nat>)
    decreases |out|
  {
    if cols == [] || out == [] then cols
    else Nest(NestOne(cols, out[0]), out[1..])
  }

  /** The empty sequence marks a stream that is already unbalanced. */
  function NestOne(cols: seq<nat>, t: Tok): seq<nat>
    requires cols != []
  {
    if t.kind.Indent? then (if |cols| <= MAX_DEPTH && t.col > Top(cols) then cols + [t.col] else [])
    else if t.kind.Dedent? then cols[..|cols| - 1]
    else cols
  }

  lemma {:induction false} NestConcat(cols: seq<nat>, a: seq<Tok>, b: seq<Tok>)
    ensures Nest(cols, a + b) == Nest(Nest(cols, a), b)
    decreases |a|
  {
    if a == [] {
      assert a + b == b;
    } else if cols != [] {
      assert (a + b)[1..] == a[1..] + b;
      NestConcat(NestOne(cols, a[0]), a[1..], b);
    }
  }

  lemma {:induction false} NestDedents(cols: seq<nat>, at: Tok, n: nat)
    requires n < |cols|
    ensures Nest(cols, Marks(Dedent, at, n)) == cols[..|cols| - n]
    decreases n
  {
    if n > 0 {
      assert Marks(Dedent, at, n)[1..] == Marks(Dedent, at, n - 1);
      NestDedents(cols[..|cols| - 1], at, n - 1);
    }
  }

  lemma NestSingle(cols: seq<nat>, t: Tok)
    requires cols != []
    ensures Nest(cols, [t]) == NestOne(cols, t)
  {
    assert [t][1..] == [];
  }

  function NewlineIf(b: bool, t: Tok): seq<Tok>
  {
    if b then [Mark(Newline, t)] else []
  }

  function IndentIf(b: bool, t: Tok): seq<Tok>
  {
    if b then [Mark(Indent, t)] else []
  }

  function PushIf(b: bool, cols: seq<nat>, c: nat): seq<nat>
  {
    if b then cols + [c] else cols
  }

  lemma NestNewline(cols: seq<nat>, b: bool, t: Tok)
    requires cols != []
    ensures Nest(cols, NewlineIf(b, t)) == cols
  {
    NestSingle(cols, Mark(Newline, t));
  }

  lemma NestIndent(cols: seq<nat>, b: bool, t: Tok)
    requires cols != [] && (b ==> |cols| <= MAX_DEPTH && t.col > Top(cols))
    ensures Nest(cols, IndentIf(b, t)) == PushIf(b, cols, t.col)
  {
    NestSingle(cols, Mark(Indent, t));
  }

  lemma NestThree(cols: seq<nat>, a: seq<Tok>, b: seq<Tok>, c: seq<Tok>)
    ensures Nest(cols, a + b + c) == Nest(Nest(Nest(cols, a), b), c)
  {
    hide *;
    NestConcat(cols, a + b, c);
    NestConcat(cols, a, b);
  }

  lemma WriteParts(l: LineOut, t: Tok)
    ensures Write(l, t) == NewlineIf(l.newline, t) + Marks(Dedent, t, l.pops) + IndentIf(l.indent, t)
  {
  }

  lemma TopOfSlice(cols: seq<nat>, n: nat)
    requires n < |cols|
    ensures Top(cols[..|cols| - n]) == cols[|cols| - n - 1]
  {
  }

  lemma NestWrite(cols: seq<nat>, l: LineOut, t: Tok)
    requires l.pops < |cols| <= MAX_DEPTH
    requires l.indent ==> t.col > cols[|cols| - l.pops - 1]
    ensures Nest(cols, Write(l, t)) == PushIf(l.indent, cols[..|cols| - l.pops], t.col)
  {
    hide *;
    var popped := cols[..|cols| - l.pops];
    TopOfSlice(cols, l.pops);
    NestNewline(cols, l.newline, t);
    NestDedents(cols, t, l.pops);
    NestIndent(popped, l.indent, t);
    NestThree(cols, NewlineIf(l.newline, t), Marks(Dedent, t, l.pops), IndentIf(l.indent, t));
    WriteParts(l, t);
  }

  /** The stack after a line is what its DEDENTs and INDENT say. */
  ghost predicate AsWritten(stack: seq<nat>, l: LineOut, c: nat)
    requires |stack| > 0
  {
    && l.pops < |stack|
    && (l.indent ==> c > stack[|stack| - l.pops - 1])
    && l.stack == PushIf(l.indent, stack[..|stack| - l.pops], c)
  }

  lemma LineStartAsWritten(stack: seq<nat>, firstLogical: bool, t: Tok)
    requires Sound(stack) && t.col >= 1
    ensures AsWritten(stack, LineStart(stack, firstLogical, t), t.col)
  {
    PopFacts(stack, t.col);
    PopSound(stack, t.col);
    hide Sound, PopTo;
    assert stack[..|stack|] == stack;
  }

  lemma LineAsWritten(st: State, t: Tok)
    requires Sound(st.stack) && t.col >= 1
    ensures AsWritten(st.stack, LineOf(st, t), t.col)
  {
    LineStartAsWritten(st.stack, st.firstLogical, t);
    PopFacts(st.stack, 0);
    hide Sound, PopTo, LineStart;
    assert st.stack[..|st.stack|] == st.stack;
  }

  lemma NestStep(st: State, t: Tok)
    requires Sound(st.stack) && t.col >= 1 && !IsLayout(t)
    ensures Nest(st.stack, Step(st, t).out) == LineOf(st, t).stack
  {
    var l := LineOf(st, t);
    LineAsWritten(st, t);
    assert |st.stack| <= MAX_DEPTH;
    NestWrite(st.stack, l, t);
    NestConcat(st.stack, Write(l, t), [t]);
    NestSingle(l.stack, t);
    hide Sound, Step, LineOf, Nest, Write;
  }

  lemma NestRunStep(ts: seq<Tok>, k: nat)
    requires 0 < k <= |ts| && ts[k - 1].col >= 1 && !IsLayout(ts[k - 1])
    requires Sound(Run(ts, k - 1).st.stack)
    requires Nest([1], Run(ts, k - 1).out) == Run(ts, k - 1).st.stack
    ensures Nest([1], Run(ts, k).out) == Run(ts, k).st.stack
  {
    hide *;
    RunStep(ts, k);
    var p := Run(ts, k - 1);
    NestStep(p.st, ts[k - 1]);
    NestConcat([1], p.out, Step(p.st, ts[k - 1]).out);
  }

  lemma {:induction false} NestRun(ts: seq<Tok>, k: nat)
    requires k <= |ts| && forall i: nat | i < |ts| :: ts[i].col >= 1 && !IsLayout(ts[i])
    ensures Nest([1], Run(ts, k).out) == Run(ts, k).st.stack
  {
    hide *;
    if k == 0 {
      NestStart(ts);
    } else {
      NestRun(ts, k - 1);
      RunSound(ts, k - 1);
      NestRunStep(ts, k);
    }
  }

  lemma NestStart(ts: seq<Tok>)
    ensures Nest([1], Run(ts, 0).out) == Run(ts, 0).st.stack
  {
  }

  lemma EofClosesAll(st: State, t: Tok)
    requires Sound(st.stack) && t.kind.Eof?
    ensures Step(st, t).st.stack == [1]
  {
    PopSound(st.stack, 0);
    hide Sound, PopTo;
  }

  lemma ScannedParts(ts: seq<Tok>)
    requires Scanned(ts)
    ensures |ts| > 0 && ts[|ts| - 1].kind.Eof?
    ensures forall i: nat | i < |ts| :: ts[i].col >= 1 && !IsLayout(ts[i])
    ensures forall i: nat | i < |ts| - 1 :: !ts[i].kind.Eof?
  {
  }

  /** INDENT and DEDENT balance, and every pushed column exceeds the enclosing one. */
  lemma Balanced(ts: seq<Tok>)
    requires Scanned(ts)
    ensures Nest([1], Output(ts)) == [1]
  {
    hide Scanned, Nest, Run, Sound, Step;
    ScannedParts(ts);
    NestRun(ts, |ts|);
    RunSound(ts, |ts| - 1);
    RunStep(ts, |ts|);
    EofClosesAll(Run(ts, |ts| - 1).st, ts[|ts| - 1]);
  }

  // ---------------------------------------------------------------- conservation

  function Source(out: seq<Tok>): seq<Tok>
  {
    if out == [] then [] else (if IsLayout(out[0]) then [] else [out[0]]) + Source(out[1..])
  }

  lemma {:induction false} SourceConcat(a: seq<Tok>, b: seq<Tok>)
    ensures Source(a + b) == Source(a) + Source(b)
  {
    if a == [] {
      assert a + b == b;
    } else {
      assert (a + b)[1..] == a[1..] + b;
      SourceConcat(a[1..], b);
    }
  }

  lemma {:induction false} SourceOfLayout(out: seq<Tok>)
    requires forall i: nat | i < |out| :: IsLayout(out[i])
    ensures Source(out) == []
  {
    if out != [] {
      SourceOfLayout(out[1..]);
    }
  }

  /** What precedes a token is layout tokens only, and only the last of them can be an INDENT. */
  lemma WriteShape(l: LineOut, t: Tok)
    ensures forall i: nat | i < |Write(l, t)| :: IsLayout(Write(l, t)[i])
    ensures forall i: nat | i < |Write(l, t)| - 1 :: !Write(l, t)[i].kind.Indent?
  {
    MarksShape(Dedent, t, l.pops);
  }

  lemma {:induction false} MarksShape(k: Kind, at: Tok, n: nat)
    ensures forall i: nat | i < n :: Marks(k, at, n)[i] == Mark(k, at)
  {
    if n > 0 {
      MarksShape(k, at, n - 1);
    }
  }

  lemma StepConserves(st: State, t: Tok)
    requires |st.stack| > 0 && !IsLayout(t)
    ensures Source(Step(st, t).out) == [t]
  {
    var w := Write(LineOf(st, t), t);
    WriteShape(LineOf(st, t), t);
    SourceOfLayout(w);
    SourceConcat(w, [t]);
    assert Source([t]) == [t] + Source([]);
  }

  lemma PrefixStep(ts: seq<Tok>, k: nat)
    requires 0 < k <= |ts|
    ensures ts[..k] == ts[..k - 1] + [ts[k - 1]]
  {
  }

  lemma {:induction false} RunConserves(ts: seq<Tok>, k: nat)
    requires k <= |ts| && forall i: nat | i < |ts| :: !IsLayout(ts[i])
    ensures Source(Run(ts, k).out) == ts[..k]
  {
    hide Source, Run, Step;
    if k == 0 {
      ConserveStart(ts);
    } else {
      RunConserves(ts, k - 1);
      ConserveStep(ts, k);
    }
  }

  lemma ConserveStart(ts: seq<Tok>)
    ensures Source(Run(ts, 0).out) == ts[..0]
  {
  }

  lemma ConserveStep(ts: seq<Tok>, k: nat)
    requires 0 < k <= |ts| && !IsLayout(ts[k - 1])
    requires Source(Run(ts, k - 1).out) == ts[..k - 1]
    ensures Source(Run(ts, k).out) == ts[..k]
  {
    hide *;
    RunStep(ts, k);
    var p, t := Run(ts, k - 1), ts[k - 1];
    StepConserves(p.st, t);
    SourceConcat(p.out, Step(p.st, t).out);
    PrefixStep(ts, k);
  }

  /** The filter neither drops, alters, reorders nor invents a source token. */
  lemma Conserved(ts: seq<Tok>)
    requires Scanned(ts)
    ensures Source(Output(ts)) == ts
  {
    RunConserves(ts, |ts|);
    assert ts[..|ts|] == ts;
  }

  // ---------------------------------------------------------------- no empty block

  ghost predicate NoEmptyBlock(out: seq<Tok>)
  {
    forall i: nat | i + 1 < |out| :: out[i].kind.Indent? ==> !out[i + 1].kind.Dedent?
  }

  /** No INDENT meets a DEDENT, and the stream ends on a source token. */
  ghost predicate Blocky(out: seq<Tok>)
  {
    NoEmptyBlock(out) && (out == [] || !IsLayout(LastTok(out)))
  }

  lemma BlockyStep(ts: seq<Tok>, k: nat)
    requires 0 < k <= |ts| && !IsLayout(ts[k - 1]) && Blocky(Run(ts, k - 1).out)
    ensures Blocky(Run(ts, k).out)
  {
    hide Run, Step, LineOf, Write;
    RunStep(ts, k);
    var p, t := Run(ts, k - 1), ts[k - 1];
    var l := LineOf(p.st, t);
    WriteShape(l, t);
    JoinNoEmptyBlock(p.out, Write(l, t), t);
    assert Step(p.st, t).out == Write(l, t) + [t];
    assert LastTok(p.out + (Write(l, t) + [t])) == t;
  }

  lemma {:induction false} RunNoEmptyBlock(ts: seq<Tok>, k: nat)
    requires k <= |ts| && forall i: nat | i < |ts| :: !IsLayout(ts[i])
    ensures Blocky(Run(ts, k).out)
  {
    hide Blocky, Run;
    if k == 0 {
      BlockyStart(ts);
    } else {
      RunNoEmptyBlock(ts, k - 1);
      BlockyStep(ts, k);
    }
  }

  lemma BlockyStart(ts: seq<Tok>)
    ensures Blocky(Run(ts, 0).out)
  {
  }

  function LastTok(out: seq<Tok>): Tok
    requires |out| > 0
  {
    out[|out| - 1]
  }

  lemma JoinNoEmptyBlock(a: seq<Tok>, b: seq<Tok>, t: Tok)
    requires NoEmptyBlock(a) && (a == [] || !IsLayout(LastTok(a))) && !IsLayout(t)
    requires forall i: nat | i < |b| - 1 :: !b[i].kind.Indent?
    ensures NoEmptyBlock(a + (b + [t]))
  {
    var out := a + (b + [t]);
    forall i: nat | i + 1 < |out|
      ensures out[i].kind.Indent? ==> !out[i + 1].kind.Dedent?
    {
      if i + 1 < |a| {
        assert out[i] == a[i] && out[i + 1] == a[i + 1];
      } else if i + 1 == |a| {
        assert out[i] == LastTok(a);
      } else if i + 1 < |a| + |b| {
        assert out[i] == b[i - |a|];
      }
    }
  }

  /** Every block region holds at least one token. */
  lemma NoIndentThenDedent(ts: seq<Tok>)
    requires Scanned(ts)
    ensures NoEmptyBlock(Output(ts))
  {
    RunNoEmptyBlock(ts, |ts|);
  }

  // ---------------------------------------------------------------- brackets

  /** The bracket depth after reading `out` from depth `d`. */
  function BracketDepth(d: nat, out: seq<Tok>): nat
    decreases |out|
  {
    if out == [] then d else BracketDepth(BracketOne(d, out[0]), out[1..])
  }

  predicate LayoutOutside(d: nat, out: seq<Tok>)
    decreases |out|
  {
    out == [] || ((IsLayout(out[0]) ==> d == 0) && LayoutOutside(BracketOne(d, out[0]), out[1..]))
  }

  lemma {:induction false} BracketConcat(d: nat, a: seq<Tok>, b: seq<Tok>)
    ensures BracketDepth(d, a + b) == BracketDepth(BracketDepth(d, a), b)
    ensures LayoutOutside(d, a + b) <==> LayoutOutside(d, a) && LayoutOutside(BracketDepth(d, a), b)
    decreases |a|
  {
    if a == [] {
      assert a + b == b;
    } else {
      assert (a + b)[1..] == a[1..] + b;
      BracketConcat(BracketOne(d, a[0]), a[1..], b);
    }
  }

  lemma {:induction false} BracketLayout(d: nat, out: seq<Tok>)
    requires forall i: nat | i < |out| :: IsLayout(out[i])
    requires out == [] || d == 0
    ensures BracketDepth(d, out) == d && LayoutOutside(d, out)
  {
    if out != [] {
      BracketLayout(d, out[1..]);
    }
  }

  ghost predicate NoBracketFault(fs: seq<Fault>)
  {
    forall i: nat | i < |fs| :: fs[i].code != LayBracket
  }

  /** A group left open at the end, or abandoned, is reported first. */
  lemma BracketFaultFirst(st: State, t: Tok)
    requires |st.stack| > 0
    ensures (if t.kind.Eof? then st.bracket > 0 else Abandons(st, t)) ==>
              |Step(st, t).faults| > 0 && Step(st, t).faults[0] == Fault(LayBracket, st.openOff)
  {
  }

  lemma BracketStep(st: State, t: Tok)
    requires |st.stack| > 0 && !IsLayout(t) && NoBracketFault(Step(st, t).faults)
    ensures LayoutOutside(st.bracket, Step(st, t).out)
    ensures t.kind.Eof? || BracketDepth(st.bracket, Step(st, t).out) == Step(st, t).st.bracket
    ensures t.kind.Eof? ==> st.bracket == 0
  {
    var l := LineOf(st, t);
    WriteShape(l, t);
    BracketFaultFirst(st, t);
    BracketLayout(st.bracket, Write(l, t));
    BracketConcat(st.bracket, Write(l, t), [t]);
    assert [t][1..] == [];
    assert BracketDepth(BracketOne(st.bracket, t), []) == BracketOne(st.bracket, t);
  }

  lemma {:induction false} RunBrackets(ts: seq<Tok>, k: nat)
    requires k <= |ts| && NoBracketFault(Run(ts, k).faults)
    requires forall i: nat | i < |ts| :: !IsLayout(ts[i]) && (i < |ts| - 1 ==> !ts[i].kind.Eof?)
    ensures LayoutOutside(0, Run(ts, k).out)
    ensures k < |ts| ==> BracketDepth(0, Run(ts, k).out) == Run(ts, k).st.bracket
  {
    hide Step, LineOf;
    if k > 0 {
      RunStep(ts, k);
      var p := Run(ts, k - 1);
      var s := Step(p.st, ts[k - 1]);
      SplitNoFault(p.faults, s.faults);
      RunBrackets(ts, k - 1);
      BracketStep(p.st, ts[k - 1]);
      BracketConcat(0, p.out, s.out);
    }
  }

  lemma SplitNoFault(a: seq<Fault>, b: seq<Fault>)
    requires NoBracketFault(a + b)
    ensures NoBracketFault(a) && NoBracketFault(b)
  {
    assert forall i: nat | i < |a| :: a[i] == (a + b)[i];
    assert forall i: nat | i < |b| :: b[i] == (a + b)[|a| + i];
  }

  /** No group abandoned and none left open: no layout token lies inside a bracket group. */
  lemma LayoutOutsideBrackets(ts: seq<Tok>)
    requires Scanned(ts) && NoBracketFault(Faults(ts))
    ensures LayoutOutside(0, Output(ts))
  {
    RunBrackets(ts, |ts|);
  }

  // ---------------------------------------------------------------- how long the output is

  lemma LineLength(st: State, t: Tok)
    requires |st.stack| > 0 && !t.kind.Eof?
    ensures |Write(LineOf(st, t), t)| + |LineOf(st, t).stack| <= |st.stack| + if st.firstLogical then 2 else 3
    ensures Step(st, t).st.firstLogical ==> st.firstLogical && LineOf(st, t) == LineOut(st.stack, false, 0, false, [])
  {
  }

  /** Every open level owes a DEDENT; each token pays for at most four. */
  lemma {:induction false} RunLength(ts: seq<Tok>, k: nat)
    requires k <= |ts| && forall i: nat | i < k :: !ts[i].kind.Eof?
    ensures var r := Run(ts, k); |r.out| + |r.st.stack| - 1 <= 4 * k - if r.st.firstLogical then 0 else 1
  {
    hide Brackets, LineStart, Write;
    if k > 0 {
      RunLength(ts, k - 1);
      RunStep(ts, k);
      LineLength(Run(ts, k - 1).st, ts[k - 1]);
    }
  }

  lemma EofLength(st: State, t: Tok)
    requires |st.stack| > 0 && t.kind.Eof?
    ensures |Step(st, t).out| <= |st.stack| + if st.firstLogical then 0 else 1
  {
    hide PopTo;
  }

  /** The bound the source's buffer needs: 4n - 3 tokens. */
  lemma OutputBound(ts: seq<Tok>)
    requires Scanned(ts)
    ensures |Output(ts)| <= 4 * |ts| - 3
  {
    hide Scanned, Run, Step;
    ScannedParts(ts);
    RunLength(ts, |ts| - 1);
    RunStep(ts, |ts|);
    EofLength(Run(ts, |ts| - 1).st, ts[|ts| - 1]);
  }

  /** Item lines of one token each, at columns n, n - 1, ..., 2. */
  function Descent(n: nat): (ts: seq<Tok>)
    requires n >= 2
    ensures |ts| == n
  {
    seq(n, i requires 0 <= i < n =>
      if i < n - 1 then Tok(i, 1, n - i, Item(0), true) else Tok(i, 0, 1, Eof, true))
  }

  lemma DescentStep(st: State, t: Tok, c: nat)
    requires st.stack == [1, c + 1] && c >= 2 && !st.firstLogical && st.bracket == 0
    requires t.col == c && t.kind == Item(0) && t.first
    ensures var s := Step(st, t);
            s.st.stack == [1, c] && !s.st.firstLogical && s.st.bracket == 0 && |s.out| == 4
  {
    assert st.stack[..1] == [1];
    assert PopTo([1], c) == [1];
    assert PopTo(st.stack, c) == [1];
    assert [1] + [c] == [1, c];
  }

  lemma {:induction false} DescentRun(n: nat, k: nat)
    requires n >= 2 && 1 <= k < n
    ensures var r := Run(Descent(n), k);
            r.st.stack == [1, n - k + 1] && !r.st.firstLogical && r.st.bracket == 0 && |r.out| == 4 * k - 2
  {
    hide LineOf, Brackets, Run, Step;
    var ts := Descent(n);
    if k == 1 {
      DescentFirst(n);
    } else {
      RunStep(ts, k);
      DescentRun(n, k - 1);
      DescentStep(Run(ts, k - 1).st, ts[k - 1], n - k + 1);
    }
  }

  lemma DescentFirst(n: nat)
    requires n >= 2
    ensures var r := Run(Descent(n), 1);
            r.st.stack == [1, n] && !r.st.firstLogical && r.st.bracket == 0 && |r.out| == 2
  {
    var ts := Descent(n);
    assert Run(ts, 0) == StepOut(START, [], []);
    assert Run(ts, 1).st == Step(START, ts[0]).st && Run(ts, 1).out == [] + Step(START, ts[0]).out;
  }

  lemma DescentLast(st: State, t: Tok)
    requires st.stack == [1, 2] && !st.firstLogical && t.kind.Eof?
    ensures |Step(st, t).out| == 3
  {
    assert PopTo([1], 0) == [1];
    assert st.stack[..1] == [1];
  }

  lemma DescentScanned(n: nat)
    requires n >= 2
    ensures Scanned(Descent(n))
  {
  }

  /** The bound is attained for every n, so no smaller one holds for all inputs. */
  lemma BoundAttained(n: nat)
    requires n >= 2
    ensures Scanned(Descent(n)) && |Output(Descent(n))| == 4 * n - 3
  {
    hide Run, Step, Scanned;
    DescentScanned(n);
    DescentRun(n, n - 1);
    RunStep(Descent(n), n);
    DescentLast(Run(Descent(n), n - 1).st, Descent(n)[n - 1]);
  }

  /** The capacity the source allocates, 3n + MAX_DEPTH + 8, is exceeded by this family from n = 76 on. */
  lemma DeclaredCapacityExceeded(n: nat)
    requires n >= 2
    ensures |Output(Descent(n))| > 3 * n + MAX_DEPTH + 8 <==> n >= 76
  {
    BoundAttained(n);
  }

  // ---------------------------------------------------------------- the length, read off the input

  /** Does `t` get a separator in front? */
  predicate Separates(st: State, t: Tok)
  {
    !st.firstLogical && (t.kind.Eof? || (StartsLine(st, t) && !IsLead(t)))
  }

  /** Does `t` open a block: an item right of every column still open, within the depth cap? */
  predicate OpensBlock(st: State, t: Tok)
    requires |st.stack| > 0
  {
    var left := PopTo(st.stack, t.col);
    !t.kind.Eof? && StartsLine(st, t) && !IsLead(t) && Top(left) < t.col && |left| < MAX_DEPTH
  }

  /** The open columns after `t`. */
  function Landing(st: State, t: Tok): (r: seq<nat>)
    requires |st.stack| > 0
    ensures |r| > 0
  {
    if t.kind.Eof? then PopTo(st.stack, 0)
    else if StartsLine(st, t) then PopTo(st.stack, t.col) + if OpensBlock(st, t) then [t.col] else []
    else st.stack
  }

  /** The open columns and brackets after `k` tokens, with nothing written. */
  function Columns(ts: seq<Tok>, k: nat): (r: State)
    requires k <= |ts|
    ensures |r.stack| > 0
  {
    if k == 0 then START
    else Onward(Columns(ts, k - 1), ts[k - 1])
  }

  function Onward(st: State, t: Tok): (r: State)
    requires |st.stack| > 0
    ensures |r.stack| > 0
  {
    if t.kind.Eof? then st.(stack := Landing(st, t)) else Brackets(AfterAbandon(st, t), Landing(st, t), t)
  }

  function Separators(ts: seq<Tok>, k: nat): nat
    requires k <= |ts|
  {
    if k == 0 then 0 else Separators(ts, k - 1) + if Separates(Columns(ts, k - 1), ts[k - 1]) then 1 else 0
  }

  function Blocks(ts: seq<Tok>, k: nat): nat
    requires k <= |ts|
  {
    if k == 0 then 0 else Blocks(ts, k - 1) + if OpensBlock(Columns(ts, k - 1), ts[k - 1]) then 1 else 0
  }

  lemma LineLands(st: State, t: Tok)
    requires Sound(st.stack) && t.col >= 1
    ensures var l := LineOf(st, t);
            && l.stack == Landing(st, t) && l.newline == Separates(st, t) && l.indent == OpensBlock(st, t)
            && |l.stack| + l.pops == |st.stack| + if l.indent then 1 else 0
  {
    PopSound(st.stack, t.col);
    PopFacts(st.stack, t.col);
  }

  lemma NothingRun(ts: seq<Tok>)
    ensures Run(ts, 0) == StepOut(START, [], [])
  {
  }

  lemma StepLength(st: State, t: Tok)
    requires Sound(st.stack) && t.col >= 1
    ensures Step(st, t).st == Onward(st, t)
    ensures |Step(st, t).out| + |Onward(st, t).stack| ==
            |st.stack| + 1 + (if Separates(st, t) then 1 else 0) + (if OpensBlock(st, t) then 2 else 0)
  {
    hide LineOf, Landing, Separates, OpensBlock, AfterAbandon;
    LineLands(st, t);
  }

  /** Each level still open owes a DEDENT. */
  lemma {:induction false} LengthSoFar(ts: seq<Tok>, k: nat)
    requires k <= |ts| && forall i: nat | i < |ts| :: ts[i].col >= 1
    ensures Run(ts, k).st == Columns(ts, k)
    ensures |Run(ts, k).out| + |Columns(ts, k).stack| - 1 == k + Separators(ts, k) + 2 * Blocks(ts, k)
  {
    hide Run, Step, Onward, Separates, OpensBlock, Sound;
    if k == 0 {
      NothingRun(ts);
    } else {
      LengthSoFar(ts, k - 1);
      RunSound(ts, k - 1);
      RunStep(ts, k);
      StepLength(Run(ts, k - 1).st, ts[k - 1]);
    }
  }

  /** How long the output is, for every input: the tokens, the separators, and two for every block opened. */
  lemma OutputLength(ts: seq<Tok>)
    requires Scanned(ts)
    ensures |Output(ts)| == |ts| + Separators(ts, |ts|) + 2 * Blocks(ts, |ts|)
  {
    hide Run, Separators, Blocks, Scanned, Brackets, AfterAbandon;
    ScannedParts(ts);
    LengthSoFar(ts, |ts|);
    RunSound(ts, |ts| - 1);
    LengthSoFar(ts, |ts| - 1);
    PopSound(Columns(ts, |ts| - 1).stack, 0);
    assert Columns(ts, |ts|).stack == [1];
  }

  /** Which inputs overrun the capacity the source allocates, and from what length on there is one. */
  lemma CapacityExactly(ts: seq<Tok>)
    requires Scanned(ts)
    ensures |Output(ts)| <= 3 * |ts| + MAX_DEPTH + 8 <==>
            Separators(ts, |ts|) + 2 * Blocks(ts, |ts|) <= 2 * |ts| + MAX_DEPTH + 8
  {
    OutputLength(ts);
  }

  lemma CapacityByLength(n: nat)
    requires n >= 1
    ensures (forall ts | Scanned(ts) && |ts| == n :: |Output(ts)| <= 3 * n + MAX_DEPTH + 8) <==> n <= 75
  {
    hide Scanned, Output;
    if n <= 75 {
      forall ts | Scanned(ts) && |ts| == n
        ensures |Output(ts)| <= 3 * n + MAX_DEPTH + 8
      {
        OutputBound(ts);
      }
    } else {
      BoundAttained(n);
      assert |Descent(n)| == n;
    }
  }
}
