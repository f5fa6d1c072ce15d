/**
  The filter as the source runs it: a bounded output buffer, an array of open columns and
  one loop; and the executable contract that a debug build runs over every emitted stream.
*/
module LayoutFilter {
  import opened Layout

  // ---------------------------------------------------------------- one line start, case by case

  /** The levels a shallower item line leaves, and the one it opens when it lands on none. */
  function Leaving(stack: seq<nat>, t: Tok): LineOut
    requires |stack| > 0
  {
    var popped := PopTo(stack, t.col);
    var pops := |stack| - |popped|;
    if Top(popped) == t.col then LineOut(popped, false, pops, false, [])
    else LineOut(PushIf(|popped| < MAX_DEPTH, popped, t.col), false, pops, |popped| < MAX_DEPTH,
                 [Fault(LayDedent, t.off)])
  }

  lemma HeadCases(stack: seq<nat>, firstLogical: bool, t: Tok)
    requires |stack| > 0
    ensures var l := LineStart(stack, firstLogical, t);
            var room := |stack| < MAX_DEPTH;
            if IsLead(t) then l == LineOut(PopTo(stack, t.col), false, |stack| - |PopTo(stack, t.col)|, false, [])
            else if t.col > Top(stack) then
              l == LineOut(PushIf(room, stack, t.col), !firstLogical, 0, room,
                           if room then [] else [Fault(LayDepth, t.off)])
            else if t.col < Top(stack) then l == Leaving(stack, t).(newline := !firstLogical)
            else l == LineOut(stack, !firstLogical, 0, false, [])
  {
    hide PopTo;
  }

  lemma PopNone(stack: seq<nat>, at: Tok)
    ensures Marks(Dedent, at, 0) == []
  {
  }

  lemma PopStep(stack: seq<nat>, c: nat)
    requires |stack| > 1 && Top(stack) > c
    ensures PopTo(stack, c) == PopTo(stack[..|stack| - 1], c) && |PopTo(stack, c)| < |stack|
  {
  }

  lemma PopStop(stack: seq<nat>, c: nat)
    requires |stack| == 1 || (|stack| > 1 && Top(stack) <= c)
    ensures PopTo(stack, c) == stack
  {
  }

  lemma EofParts(st: State, t: Tok)
    requires |st.stack| > 0 && t.kind.Eof?
    ensures var l, s := AtEof(st), Step(st, t);
            s.st.stack == l.stack && s.out == Write(l, t) + [t] && s.faults == l.faults
    ensures var l := AtEof(st);
            && l.stack == PopTo(st.stack, 0) && l.newline == !st.firstLogical && !l.indent
            && l.pops == |st.stack| - |PopTo(st.stack, 0)|
            && l.faults == if st.bracket > 0 then [Fault(LayBracket, st.openOff)] else []
  {
    hide PopTo, Write;
  }

  lemma FeedParts(st: State, t: Tok)
    requires |st.stack| > 0 && !t.kind.Eof?
    ensures var a, l, s := AfterAbandon(st, t), LineOf(st, t), Step(st, t);
            && s.st == Brackets(a, l.stack, t) && s.out == Write(l, t) + [t]
            && s.faults == (if Abandons(st, t) then [Fault(LayBracket, st.openOff)] else []) + l.faults
            && a == st.(bracket := if Abandons(st, t) then 0 else st.bracket)
            && l == if t.first && a.bracket == 0 then LineStart(st.stack, st.firstLogical, t)
                    else LineOut(st.stack, false, 0, false, [])
  {
    hide Write, LineStart;
  }

  lemma WriteSize(l: LineOut, t: Tok)
    ensures |Write(l, t)| == (if l.newline then 1 else 0) + l.pops + if l.indent then 1 else 0
  {
  }

  lemma WriteAfter(before: seq<Tok>, l: LineOut, t: Tok)
    ensures before + Write(l, t) == before + NewlineIf(l.newline, t) + Marks(Dedent, t, l.pops) + IndentIf(l.indent, t)
    ensures l.pops == 0 ==> Marks(Dedent, t, l.pops) == []
    ensures before + NewlineIf(false, t) == before
    ensures l.pops == 0 ==> before + Write(l, t) == before + NewlineIf(l.newline, t) + IndentIf(l.indent, t)
    ensures !l.indent ==> before + Write(l, t) == before + NewlineIf(l.newline, t) + Marks(Dedent, t, l.pops)
    ensures before + NewlineIf(l.newline, t) + [] == before + NewlineIf(l.newline, t)
  {
  }

  // ---------------------------------------------------------------- the filter

  class Filter {
    var out: array<Tok>
    var n: nat
    var stack: array<nat>
    var top: nat
    var diag: seq<Fault>

    ghost predicate Valid()
      reads this
    {
      n <= out.Length && stack.Length == MAX_DEPTH && top < MAX_DEPTH
    }

    ghost function Written(): seq<Tok>
      reads this, out
      requires Valid()
    {
      out[..n]
    }

    ghost function Open(): (r: seq<nat>)
      reads this, stack
      requires Valid()
      ensures |r| == top + 1
    {
      stack[..top + 1]
    }

    constructor (cap: nat)
      ensures Valid() && fresh(out) && fresh(stack) && out.Length == cap
      ensures Open() == [1] && Written() == [] && diag == []
    {
      out, n, top, diag := new Tok[cap], 0, 0, [];
      stack := new nat[MAX_DEPTH](_ => 1);
    }

    method PutToken(t: Tok)
      requires Valid() && n < out.Length
      modifies this`n, out
      ensures Valid() && Written() == old(Written()) + [t] && Open() == old(Open())
    {
      out[n] := t;
      n := n + 1;
    }

    method Put(k: Kind, at: Tok)
      requires Valid() && n < out.Length
      modifies this`n, out
      ensures Valid() && Written() == old(Written()) + [Mark(k, at)] && Open() == old(Open())
    {
      PutToken(Tok(at.off, 0, at.col, k, false));
    }

    method Push(c: nat, at: Tok)
      requires Valid() && top + 1 < MAX_DEPTH && n < out.Length
      modifies this`n, this`top, out, stack
      ensures Valid() && Open() == old(Open()) + [c] && Written() == old(Written()) + [Mark(Indent, at)]
    {
      top := top + 1;
      stack[top] := c;
      Put(Indent, at);
    }

    method Pop(c: nat, at: Tok)
      requires Valid() && n + |Open()| - |PopTo(Open(), c)| <= out.Length
      modifies this`n, this`top, out
      ensures Valid() && Open() == PopTo(old(Open()), c)
      ensures Written() == old(Written()) + Marks(Dedent, at, old(|Open()|) - |Open()|)
    {
      hide PopTo, Marks;
      ghost var open, before := Open(), Written();
      PopNone(open, at);
      while top > 0 && stack[top] > c
        invariant Valid() && top < |open| && PopTo(Open(), c) == PopTo(open, c)
        invariant Written() == before + Marks(Dedent, at, |open| - |Open()|)
      {
        PopStep(Open(), c);
        assert Open()[..top] == stack[..top];
        MarksSnoc(at, |open| - |Open()|);
        top := top - 1;
        Put(Dedent, at);
      }
      PopStop(Open(), c);
    }

    method Separate(t: Tok, firstLogical: bool)
      requires Valid() && (firstLogical || n < out.Length)
      modifies this`n, out
      ensures Valid() && Open() == old(Open()) && Written() == old(Written()) + NewlineIf(!firstLogical, t)
    {
      if !firstLogical {
        Put(Newline, t);
      }
    }

    /** A level for the column of `t`, unless the stack is full. */
    method PushIfRoom(t: Tok) returns (pushed: bool)
      requires Valid() && (top + 1 < MAX_DEPTH ==> n < out.Length)
      modifies this`n, this`top, out, stack
      ensures Valid() && pushed == (old(|Open()|) < MAX_DEPTH)
      ensures Open() == PushIf(pushed, old(Open()), t.col)
      ensures Written() == old(Written()) + IndentIf(pushed, t)
    {
      pushed := top + 1 < MAX_DEPTH;
      if pushed {
        Push(t.col, t);
      }
    }

    /** L6: leave deeper levels; where the column lands on none, report it and open one. */
    method Leave(t: Tok)
      requires Valid()
      requires var l := Leaving(Open(), t);
               n + l.pops + (if l.indent then 1 else 0) <= out.Length
      modifies this`n, this`top, this`diag, out, stack
      ensures var l := Leaving(old(Open()), t);
              && Valid() && Open() == l.stack && diag == old(diag) + l.faults
              && Written() == old(Written()) + Marks(Dedent, t, l.pops) + IndentIf(l.indent, t)
    {
      Pop(t.col, t);
      hide PopTo, Marks;
      if stack[top] != t.col {
        diag := diag + [Fault(LayDedent, t.off)];
        var pushed := PushIfRoom(t);
      }
    }

    /** L3 to L6 at a line start outside brackets. */
    method LineHead(t: Tok, firstLogical: bool)
      requires Valid() && n + |Write(LineStart(Open(), firstLogical, t), t)| <= out.Length
      modifies this`n, this`top, this`diag, out, stack
      ensures var l := LineStart(old(Open()), firstLogical, t);
              && Valid() && Open() == l.stack && Written() == old(Written()) + Write(l, t)
              && diag == old(diag) + l.faults
    {
      ghost var open, before := Open(), Written();
      ghost var l := LineStart(open, firstLogical, t);
      HeadCases(open, firstLogical, t);
      WriteSize(l, t);
      WriteAfter(before, l, t);
      hide PopTo, Marks, LineStart, Write, Leaving;
      if IsLead(t) {
        Pop(t.col, t);
      } else {
        Separate(t, firstLogical);
        if t.col > stack[top] {
          var pushed := PushIfRoom(t);
          if !pushed {
            diag := diag + [Fault(LayDepth, t.off)];
          }
        } else if t.col < stack[top] {
          Leave(t);
        }
      }
    }

    method CloseAll(t: Tok, firstLogical: bool)
      requires Valid() && n + (if firstLogical then 0 else 1) + |Open()| - |PopTo(Open(), 0)| <= out.Length
      modifies this`n, this`top, out
      ensures Valid() && Open() == PopTo(old(Open()), 0)
      ensures Written() ==
              old(Written()) + NewlineIf(!firstLogical, t) + Marks(Dedent, t, old(|Open()|) - |Open()|)
    {
      hide PopTo, Marks;
      Separate(t, firstLogical);
      Pop(0, t);
    }

    /** L8. */
    method AtEnd(t: Tok, bracket: nat, openOff: nat, firstLogical: bool)
      requires Valid() && t.kind.Eof?
      requires n + |Step(State(Open(), bracket, 0, openOff, firstLogical), t).out| <= out.Length
      modifies this`n, this`top, this`diag, out
      ensures var s := Step(State(old(Open()), bracket, 0, openOff, firstLogical), t);
              && Valid() && Open() == s.st.stack && Written() == old(Written()) + s.out
              && diag == old(diag) + s.faults
    {
      ghost var before := Written();
      ghost var st := State(Open(), bracket, 0, openOff, firstLogical);
      ghost var l := AtEof(st);
      EofParts(st, t);
      WriteSize(l, t);
      WriteAfter(before, l, t);
      hide PopTo, Marks, Write, Step, AtEof, NewlineIf;
      if bracket > 0 {
        diag := diag + [Fault(LayBracket, openOff)];
      }
      CloseAll(t, firstLogical);
      assert Written() == before + Write(l, t);
      PutToken(t);
      assert Written() == before + (Write(l, t) + [t]);
    }

    /** A token that does not end the stream. */
    method Feed(t: Tok, bracket: nat, blockCol: nat, openOff: nat, firstLogical: bool)
      returns (bracket': nat, blockCol': nat, openOff': nat, firstLogical': bool)
      requires Valid() && !t.kind.Eof?
      requires n + |Step(State(Open(), bracket, blockCol, openOff, firstLogical), t).out| <= out.Length
      modifies this`n, this`top, this`diag, out, stack
      ensures var s := Step(State(old(Open()), bracket, blockCol, openOff, firstLogical), t);
              && Valid() && State(Open(), bracket', blockCol', openOff', firstLogical') == s.st
              && Written() == old(Written()) + s.out && diag == old(diag) + s.faults
    {
      hide Step, LineOf, PopTo, Marks, LineStart, Write;
      ghost var before, faults := Written(), diag;
      ghost var st := State(Open(), bracket, blockCol, openOff, firstLogical);
      FeedParts(st, t);
      NothingWritten(LineOut(Open(), false, 0, false, []), t);
      bracket', blockCol', openOff', firstLogical' := bracket, blockCol, openOff, firstLogical;
      if t.first {
        if bracket > 0 && !IsLead(t) && t.col <= blockCol {
          diag := diag + [Fault(LayBracket, openOff)];
          bracket' := 0;
        }
        if bracket' == 0 {
          LineHead(t, firstLogical);
          firstLogical' := false;
        }
      }
      assert Open() == LineOf(st, t).stack && Written() == before + Write(LineOf(st, t), t);
      if t.kind.Open? {
        if bracket' == 0 {
          blockCol', openOff' := stack[top], t.off;
        }
        bracket' := bracket' + 1;
      } else if t.kind.Close? && bracket' > 0 {
        bracket' := bracket' - 1;
      }
      PutToken(t);
      assert Written() == before + (Write(LineOf(st, t), t) + [t]);
    }

    /** The filter after the first `k` tokens. */
    ghost predicate Stands(ts: seq<Tok>, k: nat, bracket: nat, blockCol: nat, openOff: nat, firstLogical: bool)
      requires k <= |ts|
      reads this, out, stack
    {
      && Valid() && out.Length == 4 * |ts|
      && Run(ts, k) == StepOut(State(Open(), bracket, blockCol, openOff, firstLogical), Written(), diag)
    }

    method Turn(ts: seq<Tok>, k: nat, bracket: nat, blockCol: nat, openOff: nat, firstLogical: bool)
      returns (bracket': nat, blockCol': nat, openOff': nat, firstLogical': bool)
      requires Scanned(ts) && k < |ts| - 1 && Stands(ts, k, bracket, blockCol, openOff, firstLogical)
      modifies this`n, this`top, this`diag, out, stack
      ensures Stands(ts, k + 1, bracket', blockCol', openOff', firstLogical')
    {
      hide Run, Step, Scanned;
      ScannedParts(ts);
      RunStep(ts, k + 1);
      OutputFits(ts, k + 1);
      bracket', blockCol', openOff', firstLogical' := Feed(ts[k], bracket, blockCol, openOff, firstLogical);
    }

    method Finish(ts: seq<Tok>, bracket: nat, ghost blockCol: nat, openOff: nat, firstLogical: bool)
      requires Scanned(ts) && Stands(ts, |ts| - 1, bracket, blockCol, openOff, firstLogical)
      modifies this`n, this`top, this`diag, out
      ensures Valid() && Written() == Output(ts) && diag == Faults(ts)
    {
      hide Run, Step, Scanned;
      ScannedParts(ts);
      RunStep(ts, |ts|);
      OutputFits(ts, |ts|);
      EofForgets(Run(ts, |ts| - 1).st, ts[|ts| - 1]);
      AtEnd(ts[|ts| - 1], bracket, openOff, firstLogical);
    }
  }

  lemma NothingWritten(l: LineOut, t: Tok)
    requires !l.newline && l.pops == 0 && !l.indent
    ensures Write(l, t) == []
  {
  }

  lemma OutputFits(ts: seq<Tok>, k: nat)
    requires Scanned(ts) && 0 < k <= |ts|
    ensures |Run(ts, k).out| <= 4 * |ts|
  {
    hide Run;
    ScannedParts(ts);
    if k == |ts| {
      OutputBound(ts);
    } else {
      RunLength(ts, k);
    }
  }

  /** The pass: 4n slots are enough, whatever the columns and the brackets. */
  method WokLayout(ts: seq<Tok>) returns (out: array<Tok>, n: nat, diag: seq<Fault>)
    requires Scanned(ts)
    ensures n <= out.Length == 4 * |ts|
    ensures out[..n] == Output(ts) && diag == Faults(ts)
  {
    hide Run, Step, Scanned;
    ScannedParts(ts);
    var f := new Filter(4 * |ts|);
    var bracket, blockCol, openOff, firstLogical, i := 0, 0, 0, true, 0;
    RunFrom(ts);
    while i < |ts| - 1
      invariant 0 <= i < |ts| && fresh(f.out) && fresh(f.stack) && f.out.Length == 4 * |ts|
      invariant f.Stands(ts, i, bracket, blockCol, openOff, firstLogical)
    {
      bracket, blockCol, openOff, firstLogical := f.Turn(ts, i, bracket, blockCol, openOff, firstLogical);
      i := i + 1;
    }
    f.Finish(ts, bracket, blockCol, openOff, firstLogical);
    out, n, diag := f.out, f.n, f.diag;
  }

  lemma RunFrom(ts: seq<Tok>)
    ensures Run(ts, 0) == StepOut(START, [], [])
  {
  }

  /** The column of an open group no longer matters at the end. */
  lemma EofForgets(st: State, t: Tok)
    requires |st.stack| > 0 && t.kind.Eof?
    ensures Step(st.(blockCol := 0), t).out == Step(st, t).out
    ensures Step(st.(blockCol := 0), t).faults == Step(st, t).faults
  {
  }

  lemma {:induction false} MarksSnoc(at: Tok, n: nat)
    ensures Marks(Dedent, at, n + 1) == Marks(Dedent, at, n) + [Mark(Dedent, at)]
  {
    if n > 0 {
      MarksSnoc(at, n - 1);
    }
  }
}
