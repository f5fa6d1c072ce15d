/**
  Bracket groups in the layout filter: rule L7 of grammar/c/wok_layout.c:74-87 told from the tokens and the
  written stream alone, and what every single token gets in front, in any stream.
*/
module LayoutGroups {
  import opened Layout
  import opened LayoutLaws

  // ---------------------------------------------------------------- groups, without the filter's state

  /** The innermost column a written stream leaves open. */
  function InnerColumn(out: seq<Tok>): nat
  {
    var cols := Nest([1], out);
    if cols == [] then 0 else Top(cols)
  }

  /** The outermost opener of the group that is open after `k` tokens, counting brackets from `from` on. */
  function Opener(ts: seq<Tok>, from: nat, k: nat): (g: nat)
    requires from <= k <= |ts|
    ensures from <= g <= k
    decreases k
  {
    if k == from then from
    else if ts[k - 1].kind.Open? && BracketDepth(0, ts[from..k - 1]) == 0 then k - 1
    else Opener(ts, from, k - 1)
  }

  /** Token `i` stands in a group by the count from `from` on. */
  predicate Grouped(ts: seq<Tok>, from: nat, i: nat)
    requires from <= i <= |ts|
  {
    BracketDepth(0, ts[from..i]) > 0
  }

  /** An item line at or left of the column that was innermost when its group's outermost opener was written. */
  predicate Leaves(ts: seq<Tok>, from: nat, i: nat)
    requires from <= i < |ts|
  {
    && !ts[i].kind.Eof? && ts[i].first && !IsLead(ts[i]) && Grouped(ts, from, i)
    && ts[i].col <= InnerColumn(Run(ts, Opener(ts, from, i) + 1).out)
  }

  /** Where the count of brackets begins: at the last token that left its group, or at the start. */
  function Cut(ts: seq<Tok>, k: nat): (from: nat)
    requires k <= |ts|
    ensures from <= k
    decreases k
  {
    if k == 0 then 0
    else
      var from := Cut(ts, k - 1);
      if Leaves(ts, from, k - 1) then k - 1 else from
  }

  lemma DepthNext(ts: seq<Tok>, from: nat, k: nat)
    requires from <= k < |ts|
    ensures BracketDepth(0, ts[from..k + 1]) == BracketOne(BracketDepth(0, ts[from..k]), ts[k])
  {
    var a := ts[from..k];
    assert ts[from..k + 1] == a + [ts[k]];
    BracketConcat(0, a, [ts[k]]);
    assert [ts[k]][1..] == [];
    var d := BracketDepth(0, a);
    assert BracketDepth(d, [ts[k]]) == BracketDepth(BracketOne(d, ts[k]), []);
  }

  /** Inside a group its opener is behind, and stays the opener while the group is open. */
  lemma OpenerStays(ts: seq<Tok>, from: nat, k: nat)
    requires from <= k < |ts| && Grouped(ts, from, k + 1)
    ensures Opener(ts, from, k + 1) == if Grouped(ts, from, k) then Opener(ts, from, k) else k
    ensures !Grouped(ts, from, k) ==> ts[k].kind.Open?
  {
    DepthNext(ts, from, k);
  }

  lemma NothingGrouped(ts: seq<Tok>, from: nat)
    requires from <= |ts|
    ensures !Grouped(ts, from, from)
  {
    assert ts[from..from] == [];
  }

  lemma {:induction false} OpenerBehind(ts: seq<Tok>, from: nat, k: nat)
    requires from <= k <= |ts| && Grouped(ts, from, k)
    ensures Opener(ts, from, k) < k && ts[Opener(ts, from, k)].kind.Open?
    decreases k
  {
    NothingGrouped(ts, from);
    OpenerStays(ts, from, k - 1);
    if Grouped(ts, from, k - 1) {
      OpenerBehind(ts, from, k - 1);
    }
  }

  // ---------------------------------------------------------------- the filter keeps them

  /** What the filter remembers of brackets is what the tokens say. */
  ghost predicate Remembers(ts: seq<Tok>, from: nat, k: nat, st: State)
    requires from <= k <= |ts|
  {
    && st.bracket == BracketDepth(0, ts[from..k])
    && (st.bracket > 0 ==>
          var g := Opener(ts, from, k);
          g < k && st.blockCol == InnerColumn(Run(ts, g + 1).out) && st.openOff == ts[g].off)
  }

  lemma RemembersStart(ts: seq<Tok>)
    ensures Remembers(ts, 0, 0, Run(ts, 0).st)
  {
    assert ts[0..0] == [];
  }

  /** So it abandons a group exactly when the tokens leave it. */
  lemma AbandonsIsLeaves(ts: seq<Tok>, from: nat, k: nat, st: State)
    requires from <= k < |ts| && Remembers(ts, from, k, st) && !ts[k].kind.Eof?
    ensures Abandons(st, ts[k]) <==> Leaves(ts, from, k)
  {
  }

  /** The column fixed at an opener is the innermost one written so far. */
  lemma ColumnAt(ts: seq<Tok>, k: nat)
    requires k <= |ts| && forall i: nat | i < |ts| :: ts[i].col >= 1 && !IsLayout(ts[i])
    ensures InnerColumn(Run(ts, k).out) == Top(Run(ts, k).st.stack)
  {
    NestRun(ts, k);
    hide Run, Nest;
  }

  lemma RemembersNext(ts: seq<Tok>, k: nat)
    requires k < |ts| && !ts[k].kind.Eof? && forall i: nat | i < |ts| :: ts[i].col >= 1 && !IsLayout(ts[i])
    requires Remembers(ts, Cut(ts, k), k, Run(ts, k).st)
    ensures Remembers(ts, Cut(ts, k + 1), k + 1, Run(ts, k + 1).st)
  {
    var from, st := Cut(ts, k), Run(ts, k).st;
    AbandonsIsLeaves(ts, from, k, st);
    RunStep(ts, k + 1);
    ColumnAt(ts, k + 1);
    var from' := Cut(ts, k + 1);
    if Leaves(ts, from, k) {
      assert ts[k..k] == [];
    }
    DepthNext(ts, from', k);
    if Grouped(ts, from', k + 1) {
      OpenerStays(ts, from', k);
    }
    hide Run, InnerColumn, BracketDepth, Opener, Leaves, LineOf, Cut;
  }

  lemma {:induction false} RunRemembers(ts: seq<Tok>, k: nat)
    requires Scanned(ts) && k < |ts|
    ensures Remembers(ts, Cut(ts, k), k, Run(ts, k).st)
  {
    hide Remembers, Run, Cut;
    if k == 0 {
      RemembersStart(ts);
      assert Cut(ts, 0) == 0 by {
        CutStart(ts);
      }
    } else {
      RunRemembers(ts, k - 1);
      RemembersNext(ts, k - 1);
    }
  }

  lemma CutStart(ts: seq<Tok>)
    ensures Cut(ts, 0) == 0
  {
  }

  // ---------------------------------------------------------------- every token of every stream

  /** Token `i` begins a line outside groups. */
  predicate BeginsLine(ts: seq<Tok>, i: nat)
    requires i < |ts|
  {
    !ts[i].kind.Eof? && ts[i].first && (Leaves(ts, Cut(ts, i), i) || !Grouped(ts, Cut(ts, i), i))
  }

  function LineAt(t: Tok): RefLine
  {
    RefLine(t.col, IsLead(t))
  }

  /** The reference model over the lines that begin among the first `k` tokens. */
  function Model(ts: seq<Tok>, k: nat): (r: Ref)
    requires k <= |ts|
    ensures |r.stack| > 0
  {
    if k == 0 then Ref([1], true, [], false)
    else if BeginsLine(ts, k - 1) then RefStep(Model(ts, k - 1), LineAt(ts[k - 1]))
    else Model(ts, k - 1)
  }

  /** What stands in front of token `i`: rules L3 to L8. */
  function Front(ts: seq<Tok>, i: nat): seq<Kind>
    requires i < |ts|
  {
    var r := Model(ts, i);
    if ts[i].kind.Eof? then (if r.first then [] else [Newline]) + Dedents(|r.stack| - 1)
    else if BeginsLine(ts, i) then RefMarks(r, LineAt(ts[i]))
    else []
  }

  /** A group is given up: an item line left it, or the file ended inside it. */
  predicate GivesUp(ts: seq<Tok>, i: nat)
    requires i < |ts|
  {
    if ts[i].kind.Eof? then Grouped(ts, Cut(ts, i), i) else Leaves(ts, Cut(ts, i), i)
  }

  /** The report is at the group's outermost opener. */
  function GroupFaults(ts: seq<Tok>, i: nat): seq<Fault>
    requires i < |ts|
  {
    var g := Opener(ts, Cut(ts, i), i);
    if GivesUp(ts, i) && g < |ts| then [Fault(LayBracket, ts[g].off)] else []
  }

  function LineFaults(ts: seq<Tok>, i: nat): seq<Fault>
    requires i < |ts|
  {
    if BeginsLine(ts, i) then RefFaults(Model(ts, i), LineAt(ts[i]), ts[i].off) else []
  }

  /** Layout tokens at the place of `at`. */
  function Placed(ks: seq<Kind>, at: Tok): seq<Tok>
  {
    seq(|ks|, j requires 0 <= j < |ks| => Mark(ks[j], at))
  }

  lemma {:induction false} KindsAt(out: seq<Tok>, j: nat)
    requires j < |out|
    ensures Kinds(out)[j] == out[j].kind
  {
    if j > 0 {
      KindsAt(out[1..], j - 1);
    }
  }

  lemma WriteMarks(l: LineOut, t: Tok, j: nat)
    requires j < |Write(l, t)|
    ensures Write(l, t)[j] == Mark(Write(l, t)[j].kind, t)
  {
    MarksShape(Dedent, t, l.pops);
    hide Marks;
  }

  lemma WriteIsPlaced(l: LineOut, t: Tok)
    ensures Write(l, t) == Placed(WriteKinds(l), t)
  {
    hide Write, WriteKinds, Kinds;
    KindsWrite(l, t);
    forall j: nat | j < |Write(l, t)|
      ensures Write(l, t)[j] == Placed(WriteKinds(l), t)[j]
    {
      KindsAt(Write(l, t), j);
      WriteMarks(l, t, j);
    }
  }

  /** The filter's columns are the model's. */
  ghost predicate Follows(st: State, r: Ref)
  {
    st.stack == r.stack && st.firstLogical == r.first
  }

  lemma StartsIsBegins(ts: seq<Tok>, i: nat, st: State)
    requires i < |ts| && !ts[i].kind.Eof? && Remembers(ts, Cut(ts, i), i, st)
    ensures StartsLine(st, ts[i]) <==> BeginsLine(ts, i)
    ensures Abandons(st, ts[i]) <==> Leaves(ts, Cut(ts, i), i)
  {
    AbandonsIsLeaves(ts, Cut(ts, i), i, st);
    hide Cut, Leaves, BracketDepth, Opener, Run, InnerColumn;
  }

  /** What one token adds, and where it leaves the columns. */
  lemma TokenLine(ts: seq<Tok>, i: nat, st: State)
    requires i < |ts| && !ts[i].kind.Eof? && Sound(st.stack)
    requires Remembers(ts, Cut(ts, i), i, st) && Follows(st, Model(ts, i))
    ensures WriteKinds(LineOf(st, ts[i])) == Front(ts, i) && LineOf(st, ts[i]).faults == LineFaults(ts, i)
    ensures Follows(Step(st, ts[i]).st, Model(ts, i + 1))
  {
    StartsIsBegins(ts, i, st);
    hide BeginsLine, Leaves, Remembers, LineStart, RefMarks, RefFaults, Remain, Deepens, TooDeep, Dedents, Abandons;
    if BeginsLine(ts, i) {
      LineAgrees(Model(ts, i), ts[i], LineAt(ts[i]));
    } else {
      NoDedents();
    }
  }

  lemma TokenFaults(ts: seq<Tok>, i: nat, st: State)
    requires i < |ts| && !ts[i].kind.Eof? && |st.stack| > 0 && Remembers(ts, Cut(ts, i), i, st)
    ensures Step(st, ts[i]).faults == GroupFaults(ts, i) + LineOf(st, ts[i]).faults
  {
    StartsIsBegins(ts, i, st);
    hide BeginsLine, LineOf, Run, InnerColumn, BracketDepth, Cut, Opener, Abandons;
  }

  lemma EndLine(ts: seq<Tok>, i: nat, st: State)
    requires i < |ts| && ts[i].kind.Eof? && Sound(st.stack)
    requires Remembers(ts, Cut(ts, i), i, st) && Follows(st, Model(ts, i))
    ensures WriteKinds(LineOf(st, ts[i])) == Front(ts, i)
    ensures LineFaults(ts, i) == [] && Step(st, ts[i]).faults == GroupFaults(ts, i)
  {
    PopSound(st.stack, 0);
    hide Sound, PopTo, Dedents, Model, Run, InnerColumn, BracketDepth, Cut, Opener;
  }

  lemma FollowsStart(ts: seq<Tok>)
    ensures Follows(Run(ts, 0).st, Model(ts, 0))
  {
  }

  lemma {:induction false} RunFollows(ts: seq<Tok>, k: nat)
    requires Scanned(ts) && k < |ts|
    ensures Follows(Run(ts, k).st, Model(ts, k))
  {
    hide Follows, Run, Model, Step, Remembers, Cut, Sound;
    if k == 0 {
      FollowsStart(ts);
    } else {
      RunFollows(ts, k - 1);
      RunRemembers(ts, k - 1);
      RunSound(ts, k - 1);
      RunStep(ts, k);
      TokenLine(ts, k - 1, Run(ts, k - 1).st);
    }
  }

  /**
    Every stream, brackets and all: what the filter writes for a token is the layout the rules put in front of it,
    at its place, and then the token; what it reports is the group given up, if any, and the line's own fault.
   */
  lemma TokenByToken(ts: seq<Tok>, i: nat)
    requires Scanned(ts) && i < |ts|
    ensures Run(ts, i + 1).out == Run(ts, i).out + Placed(Front(ts, i), ts[i]) + [ts[i]]
    ensures Run(ts, i + 1).faults == Run(ts, i).faults + GroupFaults(ts, i) + LineFaults(ts, i)
  {
    hide Run, Step, LineOf, Write, WriteKinds, Front, GroupFaults, LineFaults, Remembers, Follows, Sound, Cut, Model,
         Placed;
    RunRemembers(ts, i);
    RunFollows(ts, i);
    RunSound(ts, i);
    RunStep(ts, i + 1);
    var st := Run(ts, i).st;
    if ts[i].kind.Eof? {
      EndLine(ts, i, st);
    } else {
      TokenLine(ts, i, st);
      TokenFaults(ts, i, st);
    }
    WriteIsPlaced(LineOf(st, ts[i]), ts[i]);
  }

  // ---------------------------------------------------------------- rule L7, from the start of the stream

  /** Until a group is left, brackets are counted from the start. */
  lemma {:induction false} CutStays(ts: seq<Tok>, k: nat)
    requires k <= |ts| && forall j: nat | j < k :: !Leaves(ts, 0, j)
    ensures Cut(ts, k) == 0
  {
    hide Leaves;
    if k > 0 {
      CutStays(ts, k - 1);
    }
  }

  /** The first token that leaves its group is the first one the filter gives a group up for. */
  lemma {:induction false} FirstLeaver(ts: seq<Tok>, k: nat) returns (i: nat)
    requires Scanned(ts) && k < |ts| && exists j: nat | j <= k :: Leaves(ts, 0, j)
    ensures i <= k && Leaves(ts, 0, i) && Cut(ts, i) == 0 && forall j: nat | j < i :: !Leaves(ts, 0, j)
  {
    hide Leaves, Scanned;
    if exists j: nat | j < k :: Leaves(ts, 0, j) {
      i := FirstLeaver(ts, k - 1);
    } else {
      i := k;
      CutStays(ts, k);
    }
  }

  lemma {:induction false} RunGrows(ts: seq<Tok>, j: nat, k: nat)
    requires Scanned(ts) && j <= k <= |ts|
    ensures Run(ts, j).out <= Run(ts, k).out && Run(ts, j).faults <= Run(ts, k).faults
    decreases k - j
  {
    hide Run, Scanned;
    if j < k {
      RunGrows(ts, j, k - 1);
      RunStep(ts, k);
    }
  }

  lemma LineFaultsNoBracket(ts: seq<Tok>, i: nat)
    requires i < |ts|
    ensures NoBracketFault(LineFaults(ts, i))
  {
    hide BeginsLine, LandsNowhere, TooDeep, Model;
  }

  lemma JoinNoFault(a: seq<Fault>, b: seq<Fault>)
    requires NoBracketFault(a) && NoBracketFault(b)
    ensures NoBracketFault(a + b)
  {
  }

  lemma {:induction false} NothingGivenUp(ts: seq<Tok>, k: nat)
    requires Scanned(ts) && k <= |ts| && forall i: nat | i < k :: !GivesUp(ts, i)
    ensures NoBracketFault(Run(ts, k).faults)
  {
    hide *;
    if k == 0 {
      NoFaultYet(ts);
    } else {
      NothingGivenUp(ts, k - 1);
      TokenByToken(ts, k - 1);
      LineFaultsNoBracket(ts, k - 1);
      NoGroupFault(ts, k - 1);
      var r, l := Run(ts, k - 1).faults, LineFaults(ts, k - 1);
      JoinNoFault(r, l);
      assert Run(ts, k).faults == r + [] + l == r + l;
    }
  }

  lemma NoGroupFault(ts: seq<Tok>, i: nat)
    requires i < |ts| && !GivesUp(ts, i)
    ensures GroupFaults(ts, i) == []
  {
  }

  lemma NoFaultYet(ts: seq<Tok>)
    ensures NoBracketFault(Run(ts, 0).faults)
  {
  }

  /** A group given up is reported at its outermost opener. */
  lemma GivenUpReported(ts: seq<Tok>, i: nat)
    requires Scanned(ts) && i < |ts| && GivesUp(ts, i)
    ensures Grouped(ts, Cut(ts, i), i) && Opener(ts, Cut(ts, i), i) < i
    ensures Fault(LayBracket, ts[Opener(ts, Cut(ts, i), i)].off) in Faults(ts)
  {
    hide Run, Scanned, InnerColumn, BracketDepth, Cut, Opener, LineFaults;
    OpenerBehind(ts, Cut(ts, i), i);
    TokenByToken(ts, i);
    RunGrows(ts, i + 1, |ts|);
    var f := GroupFaults(ts, i);
    assert Run(ts, i + 1).faults[|Run(ts, i).faults|] == f[0];
  }

  /**
    L7: a stream is free of bracket reports exactly when every item line inside a group is right of the column that
    was innermost at the group's outermost opener, and no group is open at the end.
   */
  lemma GroupsHold(ts: seq<Tok>)
    requires Scanned(ts)
    ensures NoBracketFault(Faults(ts)) <==> (forall i: nat | i < |ts| :: !Leaves(ts, 0, i)) && !Grouped(ts, 0, |ts| - 1)
  {
    var n := |ts| - 1;
    ScannedParts(ts);
    hide Run, Scanned, InnerColumn, BracketDepth, Cut, Opener;
    if exists i: nat | i <= n :: Leaves(ts, 0, i) {
      var i := FirstLeaver(ts, n);
      GivenUpReported(ts, i);
    } else {
      CutStays(ts, n);
      if Grouped(ts, 0, n) {
        GivenUpReported(ts, n);
      } else {
        forall i: nat | i < |ts|
          ensures !GivesUp(ts, i)
        {
          CutStays(ts, i);
        }
        NothingGivenUp(ts, |ts|);
      }
    }
  }

  lemma {:induction false} NotFirst(ts: seq<Tok>, k: nat)
    requires Scanned(ts) && 0 < k < |ts| && ts[0].first
    ensures !Model(ts, k).first
  {
    hide RefMarks, Remain, Deepens, TooDeep, Leaves;
    if k == 1 {
      NothingGrouped(ts, 0);
    } else {
      NotFirst(ts, k - 1);
    }
  }

  lemma FrontOfItem(ts: seq<Tok>, i: nat)
    requires i < |ts| && BeginsLine(ts, i) && !IsLead(ts[i]) && !Model(ts, i).first
    ensures |Front(ts, i)| > 0 && Front(ts, i)[0] == Newline
  {
    hide Model, BeginsLine, Remain, Deepens, TooDeep;
  }

  /** The first item line that leaves its group is where the report comes from, and begins a line of its own. */
  lemma LeavingEndsGroup(ts: seq<Tok>, i: nat)
    requires Scanned(ts) && i < |ts| && Leaves(ts, 0, i) && forall j: nat | j < i :: !Leaves(ts, 0, j)
    ensures Opener(ts, 0, i) < i && ts[Opener(ts, 0, i)].kind.Open?
    ensures Fault(LayBracket, ts[Opener(ts, 0, i)].off) in Faults(ts)
    ensures ts[0].first ==>
              var at := |Run(ts, i).out|;
              at < |Output(ts)| && Output(ts)[at] == Mark(Newline, ts[i])
  {
    CutStays(ts, i);
    hide Run, Scanned, InnerColumn, BracketDepth, Cut, Opener, LineFaults, Front, Model;
    OpenerBehind(ts, 0, i);
    GivenUpReported(ts, i);
    if ts[0].first {
      NotFirst(ts, i);
      FrontOfItem(ts, i);
      TokenByToken(ts, i);
      RunGrows(ts, i + 1, |ts|);
      assert Run(ts, i + 1).out[|Run(ts, i).out|] == Placed(Front(ts, i), ts[i])[0];
    }
  }
}
