/**
  Two laws of the layout filter: it sees columns only through their order, and on
  bracket-free streams of one token per line it is the short column-only model
  of grammar/c/test/test_layout_sweep.c:52-99.
*/
module LayoutLaws {
  import opened Layout

  // ---------------------------------------------------------------- column invariance

  ghost predicate Stretches(f: nat -> nat)
  {
    f(1) == 1 && forall a: nat, b: nat | a < b :: f(a) < f(b)
  }

  lemma StretchZero(f: nat -> nat)
    requires Stretches(f)
    ensures f(0) == 0
  {
    assert f(0) < f(1);
  }

  function Cols(f: nat -> nat, cs: seq<nat>): (r: seq<nat>)
    ensures |r| == |cs|
  {
    if cs == [] then [] else Cols(f, cs[..|cs| - 1]) + [f(cs[|cs| - 1])]
  }

  function Move(f: nat -> nat, t: Tok): Tok
  {
    t.(col := f(t.col))
  }

  function MoveAll(f: nat -> nat, ts: seq<Tok>): (r: seq<Tok>)
    ensures |r| == |ts|
  {
    if ts == [] then [] else [Move(f, ts[0])] + MoveAll(f, ts[1..])
  }

  function MoveState(f: nat -> nat, st: State): State
  {
    st.(stack := Cols(f, st.stack), blockCol := f(st.blockCol))
  }

  lemma {:induction false} MoveConcat(f: nat -> nat, a: seq<Tok>, b: seq<Tok>)
    ensures MoveAll(f, a + b) == MoveAll(f, a) + MoveAll(f, b)
  {
    if a == [] {
      assert a + b == b;
    } else {
      assert (a + b)[1..] == a[1..] + b;
      MoveConcat(f, a[1..], b);
    }
  }

  lemma {:induction false} MoveAt(f: nat -> nat, ts: seq<Tok>, i: nat)
    requires i < |ts|
    ensures MoveAll(f, ts)[i] == Move(f, ts[i])
  {
    if i > 0 {
      MoveAt(f, ts[1..], i - 1);
    }
  }

  lemma MoveOne(f: nat -> nat, t: Tok)
    ensures MoveAll(f, [t]) == [Move(f, t)]
  {
    assert [t][1..] == [];
  }

  lemma ColsPush(f: nat -> nat, s: seq<nat>, c: nat)
    ensures Cols(f, s + [c]) == Cols(f, s) + [f(c)]
  {
    assert (s + [c])[..|s|] == s;
  }

  lemma {:induction false} MoveMarks(f: nat -> nat, k: Kind, at: Tok, n: nat)
    ensures MoveAll(f, Marks(k, at, n)) == Marks(k, Move(f, at), n)
  {
    if n > 0 {
      MoveMarks(f, k, at, n - 1);
      MoveConcat(f, [Mark(k, at)], Marks(k, at, n - 1));
      MoveOne(f, Mark(k, at));
    }
  }

  lemma OrderKept(f: nat -> nat, a: nat, b: nat)
    requires Stretches(f)
    ensures a < b <==> f(a) < f(b)
    ensures a == b <==> f(a) == f(b)
  {
    assert a < b ==> f(a) < f(b);
    assert b < a ==> f(b) < f(a);
  }

  lemma {:induction false} PopMoves(f: nat -> nat, stack: seq<nat>, c: nat)
    requires Stretches(f) && |stack| > 0
    ensures PopTo(Cols(f, stack), f(c)) == Cols(f, PopTo(stack, c))
    decreases |stack|
  {
    OrderKept(f, c, Top(stack));
    assert Cols(f, stack) == Cols(f, stack[..|stack| - 1]) + [f(Top(stack))];
    assert Cols(f, stack)[..|stack| - 1] == Cols(f, stack[..|stack| - 1]);
    if |stack| > 1 && Top(stack) > c {
      PopMoves(f, stack[..|stack| - 1], c);
    }
  }

  lemma TopMoves(f: nat -> nat, stack: seq<nat>)
    requires |stack| > 0
    ensures Top(Cols(f, stack)) == f(Top(stack))
  {
  }

  /** The outcome of a line start, in terms of four comparisons and the two stacks. */
  function LineCase(stack: seq<nat>, popped: seq<nat>, lead: bool, deeper: bool, shallower: bool, lands: bool,
                    newline: bool, c: nat, off: nat): LineOut
    requires |popped| <= |stack|
  {
    var pops := |stack| - |popped|;
    if lead then LineOut(popped, false, pops, false, [])
    else if deeper then
      if |stack| >= MAX_DEPTH then LineOut(stack, newline, 0, false, [Fault(LayDepth, off)])
      else LineOut(stack + [c], newline, 0, true, [])
    else if shallower then
      if lands then LineOut(popped, newline, pops, false, [])
      else if |popped| < MAX_DEPTH then LineOut(popped + [c], newline, pops, true, [Fault(LayDedent, off)])
      else LineOut(popped, newline, pops, false, [Fault(LayDedent, off)])
    else LineOut(stack, newline, 0, false, [])
  }

  lemma LineStartCase(stack: seq<nat>, firstLogical: bool, t: Tok)
    requires |stack| > 0
    ensures var popped := PopTo(stack, t.col);
            LineStart(stack, firstLogical, t) ==
            LineCase(stack, popped, IsLead(t), t.col > Top(stack), t.col < Top(stack), Top(popped) == t.col,
                     !firstLogical, t.col, t.off)
  {
    hide PopTo;
  }

  lemma LineCaseMoves(f: nat -> nat, stack: seq<nat>, popped: seq<nat>, lead: bool, deeper: bool, shallower: bool,
                      lands: bool, newline: bool, c: nat, off: nat)
    requires |popped| <= |stack|
    ensures var l := LineCase(stack, popped, lead, deeper, shallower, lands, newline, c, off);
            LineCase(Cols(f, stack), Cols(f, popped), lead, deeper, shallower, lands, newline, f(c), off) ==
            l.(stack := Cols(f, l.stack))
  {
    ColsPush(f, stack, c);
    ColsPush(f, popped, c);
    hide Cols;
  }

  lemma LineStartMoves(f: nat -> nat, stack: seq<nat>, firstLogical: bool, t: Tok)
    requires Stretches(f) && |stack| > 0
    ensures var l := LineStart(stack, firstLogical, t);
            LineStart(Cols(f, stack), firstLogical, Move(f, t)) == l.(stack := Cols(f, l.stack))
  {
    var popped := PopTo(stack, t.col);
    PopMoves(f, stack, t.col);
    TopMoves(f, stack);
    TopMoves(f, popped);
    OrderKept(f, t.col, Top(stack));
    OrderKept(f, Top(stack), t.col);
    OrderKept(f, Top(popped), t.col);
    LineStartCase(stack, firstLogical, t);
    LineStartCase(Cols(f, stack), firstLogical, Move(f, t));
    LineCaseMoves(f, stack, popped, IsLead(t), t.col > Top(stack), t.col < Top(stack), Top(popped) == t.col,
                  !firstLogical, t.col, t.off);
    hide LineStart, LineCase, Cols, PopTo, Stretches, Top;
  }

  lemma AtEofMoves(f: nat -> nat, st: State)
    requires Stretches(f) && |st.stack| > 0
    ensures AtEof(MoveState(f, st)) == AtEof(st).(stack := Cols(f, AtEof(st).stack))
  {
    StretchZero(f);
    PopMoves(f, st.stack, 0);
    hide Cols, PopTo, Stretches;
  }

  lemma LineMoves(f: nat -> nat, st: State, t: Tok)
    requires Stretches(f) && |st.stack| > 0
    ensures var l := LineOf(st, t);
            LineOf(MoveState(f, st), Move(f, t)) == l.(stack := Cols(f, l.stack))
  {
    AbandonsMoves(f, st, t);
    AtEofMoves(f, st);
    LineStartMoves(f, st.stack, st.firstLogical, t);
    hide Cols, Stretches, AtEof, LineStart, Abandons;
  }

  lemma WriteMoves(f: nat -> nat, l: LineOut, stack: seq<nat>, t: Tok)
    ensures Write(l.(stack := stack), Move(f, t)) == MoveAll(f, Write(l, t))
  {
    var a, b, c := NewlineIf(l.newline, t), Marks(Dedent, t, l.pops), IndentIf(l.indent, t);
    MoveMarks(f, Dedent, t, l.pops);
    MoveOne(f, Mark(Newline, t));
    MoveOne(f, Mark(Indent, t));
    MoveConcat(f, a, b);
    MoveConcat(f, a + b, c);
    assert MoveAll(f, a) == NewlineIf(l.newline, Move(f, t));
    assert MoveAll(f, c) == IndentIf(l.indent, Move(f, t));
    hide NewlineIf, IndentIf, Marks, MoveAll;
  }

  function MoveStep(f: nat -> nat, s: StepOut): StepOut
  {
    StepOut(MoveState(f, s.st), MoveAll(f, s.out), s.faults)
  }

  lemma AbandonsMoves(f: nat -> nat, st: State, t: Tok)
    requires Stretches(f) && |st.stack| > 0
    ensures Abandons(MoveState(f, st), Move(f, t)) <==> Abandons(st, t)
  {
    OrderKept(f, t.col, st.blockCol);
    OrderKept(f, st.blockCol, t.col);
    hide Cols, Stretches;
  }

  lemma BracketOneMoves(f: nat -> nat, d: nat, t: Tok)
    ensures BracketOne(d, Move(f, t)) == BracketOne(d, t)
  {
  }

  lemma BracketsMove(f: nat -> nat, st: State, stack: seq<nat>, t: Tok)
    requires |stack| > 0
    ensures Brackets(MoveState(f, st), Cols(f, stack), Move(f, t)) == MoveState(f, Brackets(st, stack, t))
  {
    TopMoves(f, stack);
    hide Cols, Top, BracketOne;
    BracketOneMoves(f, st.bracket, t);
  }

  lemma StepMoves(f: nat -> nat, st: State, t: Tok)
    requires Stretches(f) && |st.stack| > 0
    ensures Step(MoveState(f, st), Move(f, t)) == MoveStep(f, Step(st, t))
  {
    var l := LineOf(st, t);
    LineMoves(f, st, t);
    AbandonsMoves(f, st, t);
    WriteMoves(f, l, Cols(f, l.stack), t);
    MoveConcat(f, Write(l, t), [t]);
    MoveOne(f, t);
    BracketsMove(f, AfterAbandon(st, t), l.stack, t);
    hide LineOf, Write, Stretches, Cols, MoveAll, Abandons, Brackets;
  }

  lemma RunMovesStep(f: nat -> nat, ts: seq<Tok>, k: nat)
    requires Stretches(f) && 0 < k <= |ts|
    requires Run(MoveAll(f, ts), k - 1) == MoveStep(f, Run(ts, k - 1))
    ensures Run(MoveAll(f, ts), k) == MoveStep(f, Run(ts, k))
  {
    hide Stretches, Run, Step, MoveAll, MoveState;
    var p := Run(ts, k - 1);
    RunStep(ts, k);
    RunStep(MoveAll(f, ts), k);
    MoveAt(f, ts, k - 1);
    StepMoves(f, p.st, ts[k - 1]);
    MoveConcat(f, p.out, Step(p.st, ts[k - 1]).out);
  }

  lemma RunMovesStart(f: nat -> nat, ts: seq<Tok>)
    requires Stretches(f)
    ensures Run(MoveAll(f, ts), 0) == MoveStep(f, Run(ts, 0))
  {
    StretchZero(f);
    assert Cols(f, []) == [];
    ColsPush(f, [], 1);
    assert [] + [1] == [1];
  }

  lemma {:induction false} RunMoves(f: nat -> nat, ts: seq<Tok>, k: nat)
    requires Stretches(f) && k <= |ts|
    ensures Run(MoveAll(f, ts), k) == MoveStep(f, Run(ts, k))
  {
    hide *;
    if k == 0 {
      RunMovesStart(f, ts);
    } else {
      RunMoves(f, ts, k - 1);
      RunMovesStep(f, ts, k);
    }
  }

  /**
    Stretching the columns in an order-preserving way that keeps column 1 changes no token
    kind and no fault, whatever groups are abandoned, dedents repaired or depths overrun.
   */
  lemma ColumnInvariance(f: nat -> nat, ts: seq<Tok>)
    requires Stretches(f)
    ensures |Output(MoveAll(f, ts))| == |Output(ts)|
    ensures forall i: nat | i < |Output(ts)| :: Output(MoveAll(f, ts))[i].kind == Output(ts)[i].kind
    ensures Faults(MoveAll(f, ts)) == Faults(ts)
  {
    RunMoves(f, ts, |ts|);
    hide Run;
    forall i: nat | i < |Output(ts)|
      ensures Output(MoveAll(f, ts))[i].kind == Output(ts)[i].kind
    {
      MoveAt(f, Output(ts), i);
    }
  }

  // ---------------------------------------------------------------- the reference model

  datatype RefLine = RefLine(col: nat, cont: bool)

  datatype Ref = Ref(stack: seq<nat>, first: bool, kinds: seq<Kind>, fault: bool)

  /** What a synthesised line's only token is. */
  function LineKind(l: RefLine): Kind
  {
    if l.cont then Lead(0) else Item(0)
  }

  function Dedents(n: nat): (r: seq<Kind>)
    ensures |r| == n
  {
    if n == 0 then [] else [Dedent] + Dedents(n - 1)
  }

  /** How many open columns are at or left of `c`. */
  function AtMost(stack: seq<nat>, c: nat): (n: nat)
    ensures n <= |stack|
  {
    if stack == [] then 0 else AtMost(stack[..|stack| - 1], c) + if Top(stack) <= c then 1 else 0
  }

  /** The levels a line at column `c` leaves open: those at or left of it, and the outermost always. */
  function Remain(stack: seq<nat>, c: nat): (r: seq<nat>)
    requires |stack| > 0
    ensures 0 < |r| <= |stack|
  {
    var n := AtMost(stack, c);
    stack[..if n == 0 then 1 else n]
  }

  /** An item opens a block right of the levels left open: a deeper line, or a dedent that lands between two. */
  predicate Deepens(r: Ref, l: RefLine)
    requires |r.stack| > 0
  {
    !l.cont && Top(Remain(r.stack, l.col)) != l.col && (l.col > Top(r.stack) || l.col < Top(r.stack))
  }

  /** A dedent that lands between two levels. */
  predicate LandsNowhere(r: Ref, l: RefLine)
    requires |r.stack| > 0
  {
    Deepens(r, l) && l.col < Top(r.stack)
  }

  /** L5: a block that would be one level too many is not opened. */
  predicate TooDeep(r: Ref, l: RefLine)
    requires |r.stack| > 0
  {
    Deepens(r, l) && |Remain(r.stack, l.col)| >= MAX_DEPTH
  }

  /** What a line gets in front: L3 to L6, restated over its column. */
  function RefMarks(r: Ref, l: RefLine): seq<Kind>
    requires |r.stack| > 0
  {
    (if r.first || l.cont then [] else [Newline])
      + Dedents(|r.stack| - |Remain(r.stack, l.col)|)
      + (if Deepens(r, l) && !TooDeep(r, l) then [Indent] else [])
  }

  /** What a line is reported for. */
  function RefFaults(r: Ref, l: RefLine, off: nat): seq<Fault>
    requires |r.stack| > 0
  {
    (if LandsNowhere(r, l) then [Fault(LayDedent, off)] else [])
      + (if TooDeep(r, l) then [Fault(LayDepth, off)] else [])
  }

  function RefStep(r: Ref, l: RefLine): (s: Ref)
    requires |r.stack| > 0
    ensures |s.stack| > 0
  {
    Ref(Remain(r.stack, l.col) + (if Deepens(r, l) && !TooDeep(r, l) then [l.col] else []), false,
        r.kinds + RefMarks(r, l) + [LineKind(l)], r.fault || LandsNowhere(r, l) || TooDeep(r, l))
  }

  lemma {:induction false} RemainIs(stack: seq<nat>, c: nat)
    requires Sound(stack)
    ensures Remain(stack, c) == PopTo(stack, c)
    decreases |stack|
  {
    if Top(stack) <= c {
      AllAtMost(stack, c);
    } else if |stack| > 1 {
      RemainIs(stack[..|stack| - 1], c);
      var n := AtMost(stack, c);
      assert stack[..|stack| - 1][..if n == 0 then 1 else n] == stack[..if n == 0 then 1 else n];
    }
  }

  lemma {:induction false} AllAtMost(stack: seq<nat>, c: nat)
    requires forall i: nat | i < |stack| :: stack[i] <= c
    ensures AtMost(stack, c) == |stack|
    decreases |stack|
  {
    if stack != [] {
      AllAtMost(stack[..|stack| - 1], c);
    }
  }

  function RefRun(ls: seq<RefLine>, k: nat): (r: Ref)
    requires k <= |ls|
    ensures |r.stack| > 0
  {
    if k == 0 then Ref([1], true, [], false) else RefStep(RefRun(ls, k - 1), ls[k - 1])
  }

  /** L8: the kinds of the whole stream, and whether a dedent was repaired or a level refused. */
  function RefLayout(ls: seq<RefLine>): (seq<Kind>, bool)
  {
    var r := RefRun(ls, |ls|);
    (r.kinds + (if r.first then [] else [Newline]) + Dedents(|r.stack| - 1) + [Eof], r.fault)
  }

  /** One token per line, then EOF. */
  function Synth(ls: seq<RefLine>): (ts: seq<Tok>)
    ensures |ts| == |ls| + 1
    ensures forall i: nat | i < |ls| :: ts[i] == Tok(i, 1, ls[i].col, LineKind(ls[i]), true)
    ensures ts[|ls|] == Tok(|ls|, 0, 1, Eof, true)
  {
    seq(|ls|, i requires 0 <= i < |ls| => Tok(i, 1, ls[i].col, LineKind(ls[i]), true)) + [Tok(|ls|, 0, 1, Eof, true)]
  }

  function Kinds(ts: seq<Tok>): (r: seq<Kind>)
    ensures |r| == |ts|
  {
    if ts == [] then [] else [ts[0].kind] + Kinds(ts[1..])
  }

  lemma {:induction false} KindsConcat(a: seq<Tok>, b: seq<Tok>)
    ensures Kinds(a + b) == Kinds(a) + Kinds(b)
  {
    if a == [] {
      assert a + b == b;
    } else {
      assert (a + b)[1..] == a[1..] + b;
      KindsConcat(a[1..], b);
    }
  }

  lemma KindsOne(t: Tok)
    ensures Kinds([t]) == [t.kind]
  {
    assert [t][1..] == [];
  }

  lemma {:induction false} KindsMarks(at: Tok, n: nat)
    ensures Kinds(Marks(Dedent, at, n)) == Dedents(n)
  {
    if n > 0 {
      KindsMarks(at, n - 1);
      KindsConcat([Mark(Dedent, at)], Marks(Dedent, at, n - 1));
      KindsOne(Mark(Dedent, at));
    }
  }

  function WriteKinds(l: LineOut): seq<Kind>
  {
    (if l.newline then [Newline] else []) + Dedents(l.pops) + (if l.indent then [Indent] else [])
  }

  lemma KindsWrite(l: LineOut, t: Tok)
    ensures Kinds(Write(l, t)) == WriteKinds(l)
  {
    var a, b, c := NewlineIf(l.newline, t), Marks(Dedent, t, l.pops), IndentIf(l.indent, t);
    KindsMarks(t, l.pops);
    KindsOne(Mark(Newline, t));
    KindsOne(Mark(Indent, t));
    KindsConcat(a, b);
    KindsConcat(a + b, c);
    hide Marks, Dedents;
  }

  /** The filter's state and output after `k` lines are the model's. */
  ghost predicate Agrees(s: StepOut, r: Ref)
  {
    && s.st.stack == r.stack && s.st.bracket == 0 && s.st.firstLogical == r.first
    && Kinds(s.out) == r.kinds && (s.faults != [] <==> r.fault)
  }

  /** A line start, as one line of the model. */
  lemma LineAgrees(r: Ref, t: Tok, l: RefLine)
    requires Sound(r.stack) && t.col == l.col && l.cont == IsLead(t)
    ensures var o := LineStart(r.stack, r.first, t);
            && o.stack == RefStep(r, l).stack && WriteKinds(o) == RefMarks(r, l)
            && o.faults == RefFaults(r, l, t.off)
  {
    RemainIs(r.stack, l.col);
    PopFacts(r.stack, l.col);
    NoDedents();
    WriteKindsParts(LineStart(r.stack, r.first, t));
    hide Remain, PopTo, Dedents, WriteKinds;
  }

  lemma NoDedents()
    ensures Dedents(0) == []
  {
  }

  lemma WriteKindsParts(o: LineOut)
    ensures !o.newline && !o.indent ==> WriteKinds(o) == Dedents(o.pops)
    ensures o.newline && !o.indent ==> WriteKinds(o) == [Newline] + Dedents(o.pops)
    ensures !o.newline && o.indent ==> WriteKinds(o) == Dedents(o.pops) + [Indent]
  {
  }

  /** What one step does to a stream of line heads outside brackets. */
  lemma HeadStep(st: State, t: Tok)
    requires |st.stack| > 0 && st.bracket == 0 && t.first && (t.kind.Item? || t.kind.Lead?)
    ensures var l := LineStart(st.stack, st.firstLogical, t);
            var n := Step(st, t);
            && n.st.stack == l.stack && n.st.bracket == 0 && !n.st.firstLogical
            && n.faults == l.faults && Kinds(n.out) == WriteKinds(l) + [t.kind]
  {
    hide PopTo, LineStart, Write, WriteKinds, Kinds;
    var l := LineOf(st, t);
    KindsWrite(l, t);
    KindsOne(t);
    KindsConcat(Write(l, t), [t]);
  }

  lemma AgreesNext(s: StepOut, r: Ref, n: StepOut, o: LineOut, k: Kind)
    requires Agrees(s, r)
    requires n.st.stack == o.stack && n.st.bracket == 0 && !n.st.firstLogical && n.faults == o.faults
    requires Kinds(s.out + n.out) == Kinds(s.out) + (WriteKinds(o) + [k])
    ensures Agrees(StepOut(n.st, s.out + n.out, s.faults + n.faults),
                   Ref(o.stack, false, r.kinds + WriteKinds(o) + [k], r.fault || o.faults != []))
  {
    hide Kinds, WriteKinds;
    assert r.kinds + (WriteKinds(o) + [k]) == r.kinds + WriteKinds(o) + [k];
  }

  lemma StepAgrees(s: StepOut, r: Ref, t: Tok, l: RefLine)
    requires Sound(r.stack) && Agrees(s, r)
    requires t.col == l.col && t.kind == LineKind(l) && t.first
    ensures var n := Step(s.st, t);
            Agrees(StepOut(n.st, s.out + n.out, s.faults + n.faults), RefStep(r, l))
  {
    var n, o := Step(s.st, t), LineStart(r.stack, r.first, t);
    LineAgrees(r, t, l);
    HeadStep(s.st, t);
    KindsConcat(s.out, n.out);
    hide Step, RefMarks, WriteKinds, Kinds, LineStart, Remain, Deepens, LandsNowhere, TooDeep, Sound;
    AgreesNext(s, r, n, o, t.kind);
  }

  lemma RunAgreesStep(ls: seq<RefLine>, k: nat)
    requires 0 < k <= |ls| && Sound(RefRun(ls, k - 1).stack)
    requires Agrees(Run(Synth(ls), k - 1), RefRun(ls, k - 1))
    ensures Agrees(Run(Synth(ls), k), RefRun(ls, k))
  {
    hide Agrees, Run, Step, RefStep, Synth;
    RunStep(Synth(ls), k);
    StepAgrees(Run(Synth(ls), k - 1), RefRun(ls, k - 1), Synth(ls)[k - 1], ls[k - 1]);
    assert RefRun(ls, k) == RefStep(RefRun(ls, k - 1), ls[k - 1]);
    var n := Step(Run(Synth(ls), k - 1).st, Synth(ls)[k - 1]);
    assert Run(Synth(ls), k) == StepOut(n.st, Run(Synth(ls), k - 1).out + n.out, Run(Synth(ls), k - 1).faults
           + n.faults);
  }

  lemma RunAgreesStart(ls: seq<RefLine>)
    ensures Agrees(Run(Synth(ls), 0), RefRun(ls, 0))
  {
  }

  lemma AgreesStack(s: StepOut, r: Ref)
    requires Agrees(s, r)
    ensures s.st.stack == r.stack
  {
  }

  lemma {:induction false} RunAgrees(ls: seq<RefLine>, k: nat)
    requires k <= |ls| && forall i: nat | i < |ls| :: ls[i].col >= 1
    ensures Agrees(Run(Synth(ls), k), RefRun(ls, k))
  {
    hide Agrees, Run, RefRun, Synth;
    if k == 0 {
      RunAgreesStart(ls);
    } else {
      RunAgrees(ls, k - 1);
      RunSound(Synth(ls), k - 1);
      AgreesStack(Run(Synth(ls), k - 1), RefRun(ls, k - 1));
      RunAgreesStep(ls, k);
    }
  }

  lemma EofAgrees(s: StepOut, r: Ref, t: Tok)
    requires |r.stack| > 0 && Agrees(s, r) && Sound(r.stack) && t.kind.Eof?
    ensures Kinds(s.out + Step(s.st, t).out) ==
            r.kinds + (if r.first then [] else [Newline]) + Dedents(|r.stack| - 1) + [Eof]
    ensures Step(s.st, t).faults == []
  {
    PopSound(r.stack, 0);
    var line := LineOf(s.st, t);
    KindsWrite(line, t);
    KindsOne(t);
    KindsConcat(Write(line, t), [t]);
    KindsConcat(s.out, Step(s.st, t).out);
    hide PopTo, Write, Kinds, Sound, Dedents;
    assert WriteKinds(line) == (if r.first then [] else [Newline]) + Dedents(|r.stack| - 1);
  }

  /** Token for token and fault for fault, for streams of every length. */
  lemma FilterRefinesModel(ls: seq<RefLine>)
    requires forall i: nat | i < |ls| :: ls[i].col >= 1
    ensures Kinds(Output(Synth(ls))) == RefLayout(ls).0
    ensures Faults(Synth(ls)) != [] <==> RefLayout(ls).1
  {
    hide Run, RefRun, Step, Sound, Kinds;
    var n := |ls|;
    var ts := Synth(ls);
    RunAgrees(ls, n);
    RunStep(ts, n + 1);
    RunSound(ts, n);
    EofAgrees(Run(ts, n), RefRun(ls, n), ts[n]);
  }
}
