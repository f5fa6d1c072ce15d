/**
  The parser's region discard (grammar/c/wok_parse.c:294-343): after a fault, skip to the
  boundary of the block the damaged item stands in.
*/
module Recovery {
  import opened Layout

  function Delta(t: Tok): int
  {
    if t.kind.Indent? then 1 else if t.kind.Dedent? then -1 else 0
  }

  /** INDENTs less DEDENTs from `lo` up to `hi`. */
  function Net(ts: seq<Tok>, lo: nat, hi: nat): int
    requires hi <= |ts|
    decreases hi
  {
    if hi <= lo then 0 else Net(ts, lo, hi - 1) + Delta(ts[hi - 1])
  }

  lemma {:induction false} NetSplit(ts: seq<Tok>, lo: nat, mid: nat, hi: nat)
    requires lo <= mid <= hi <= |ts|
    ensures Net(ts, lo, hi) == Net(ts, lo, mid) + Net(ts, mid, hi)
    decreases hi
  {
    if mid < hi {
      NetSplit(ts, lo, mid, hi - 1);
    }
  }

  /** The stream contract the parser relies on. */
  ghost predicate Sane(ts: seq<Tok>)
  {
    && |ts| > 0 && LayoutOutside(0, ts)
    && (forall i: nat | i < |ts| :: ts[i].kind.Eof? <==> i == |ts| - 1)
    && (forall hi: nat | hi <= |ts| :: Net(ts, 0, hi) >= 0) && Net(ts, 0, |ts|) == 0
  }

  /** How many DEDENTs stand in a row from `i` on. */
  function Closers(ts: seq<Tok>, i: nat): (n: nat)
    requires i <= |ts|
    ensures i + n <= |ts|
    decreases |ts| - i
  {
    if i < |ts| && ts[i].kind.Dedent? then 1 + Closers(ts, i + 1) else 0
  }

  lemma {:induction false} ClosersNet(ts: seq<Tok>, i: nat, n: nat)
    requires i <= |ts| && n <= Closers(ts, i)
    ensures Net(ts, i, i + n) == 0 - n
    ensures forall j: nat | i <= j < i + n :: ts[j].kind.Dedent? && Net(ts, i, j) + j == i
    decreases n
  {
    if n > 0 {
      ClosersNet(ts, i, n - 1);
      ClosersAt(ts, i, n - 1);
    }
  }

  lemma {:induction false} ClosersAt(ts: seq<Tok>, i: nat, n: nat)
    requires i <= |ts| && n < Closers(ts, i)
    ensures ts[i + n].kind.Dedent?
    decreases n
  {
    if n > 0 {
      ClosersAt(ts, i + 1, n - 1);
    }
  }

  /** Nothing in the run from `lo` to `hi` ends the block `lo` stands in. */
  ghost predicate Inside(ts: seq<Tok>, lo: nat, hi: nat)
    requires hi <= |ts|
  {
    forall j: nat | lo <= j < hi :: !ts[j].kind.Eof?
      && (ts[j].kind.Newline? || ts[j].kind.Dedent? ==> Net(ts, lo, j) > 0)
  }

  /** No NEWLINE of the run closes, with the DEDENTs after it, every level entered since `lo`. */
  ghost predicate Unclosed(ts: seq<Tok>, lo: nat, hi: nat)
    requires hi <= |ts|
  {
    forall j: nat | lo <= j < hi && ts[j].kind.Newline? :: Closers(ts, j + 1) < Net(ts, lo, j)
  }

  /** The run ends just past the levels it entered: a NEWLINE and the DEDENTs behind it close them all, and no more. */
  ghost predicate Past(ts: seq<Tok>, lo: nat, hi: nat)
    requires hi <= |ts|
  {
    exists j: nat :: lo <= j < hi && ts[j].kind.Newline? && Net(ts, lo, j) == hi - j - 1 == Closers(ts, j + 1)
      && Unclosed(ts, lo, j)
  }

  /** Where recovery ends: there, or at the block's own boundary. */
  ghost predicate Boundary(ts: seq<Tok>, lo: nat, hi: nat)
    requires hi < |ts|
  {
    Past(ts, lo, hi) || ts[hi].kind.Eof? || ts[hi].kind.Newline? || ts[hi].kind.Dedent?
  }

  lemma DepthStep(ts: seq<Tok>, i: nat)
    requires i < |ts|
    ensures BracketDepth(0, ts[..i + 1]) == BracketOne(BracketDepth(0, ts[..i]), ts[i])
  {
    BracketConcat(0, ts[..i], [ts[i]]);
    assert ts[..i + 1] == ts[..i] + [ts[i]];
    var d := BracketDepth(0, ts[..i]);
    assert [ts[i]][1..] == [];
    assert BracketDepth(d, [ts[i]]) == BracketDepth(BracketOne(d, ts[i]), []);
  }

  lemma OutsideAt(ts: seq<Tok>, i: nat)
    requires LayoutOutside(0, ts) && i < |ts| && IsLayout(ts[i])
    ensures BracketDepth(0, ts[..i]) == 0
  {
    BracketConcat(0, ts[..i], ts[i..]);
    assert ts == ts[..i] + ts[i..];
    assert ts[i..][0] == ts[i];
  }

  // ---------------------------------------------------------------- one turn of the loop

  /** Where the loop stands: `br` brackets and `ind` levels entered since `lo`. */
  ghost predicate Here(ts: seq<Tok>, lo: nat, i: nat, br: nat, ind: nat)
  {
    && lo <= i < |ts| && br <= BracketDepth(0, ts[..i]) && ind == Net(ts, lo, i)
    && Inside(ts, lo, i) && Unclosed(ts, lo, i)
  }

  lemma HereStart(ts: seq<Tok>, lo: nat)
    requires lo < |ts|
    ensures Here(ts, lo, lo, 0, 0)
  {
  }

  lemma HereIndent(ts: seq<Tok>, lo: nat, i: nat, ind: nat)
    requires Sane(ts) && Here(ts, lo, i, 0, ind) && ts[i].kind.Indent?
    ensures Here(ts, lo, i + 1, 0, ind + 1)
  {
    hide LayoutOutside;
  }

  lemma HereDedent(ts: seq<Tok>, lo: nat, i: nat, ind: nat)
    requires Sane(ts) && Here(ts, lo, i, 0, ind) && ts[i].kind.Dedent? && ind > 0
    ensures Here(ts, lo, i + 1, 0, ind - 1)
  {
    hide LayoutOutside;
  }

  lemma HereNewline(ts: seq<Tok>, lo: nat, i: nat, ind: nat)
    requires Sane(ts) && Here(ts, lo, i, 0, ind) && ts[i].kind.Newline? && Closers(ts, i + 1) < ind
    ensures Here(ts, lo, i + 1, 0, ind)
  {
    hide LayoutOutside;
  }

  function Brackets(br: nat, t: Tok): nat
  {
    if t.kind.Open? then br + 1 else if t.kind.Close? && br > 0 then br - 1 else br
  }

  /** Inside a bracket group there is no layout token to miss. */
  lemma HereOther(ts: seq<Tok>, lo: nat, i: nat, br: nat, ind: nat)
    requires Sane(ts) && Here(ts, lo, i, br, ind) && !ts[i].kind.Eof? && (br > 0 || !IsLayout(ts[i]))
    ensures Here(ts, lo, i + 1, Brackets(br, ts[i]), ind)
  {
    if IsLayout(ts[i]) {
      OutsideAt(ts, i);
    }
    DepthStep(ts, i);
    hide LayoutOutside, BracketDepth;
  }

  /** At the end of a sound stream every level entered has been left. */
  lemma HereEof(ts: seq<Tok>, lo: nat, i: nat, br: nat, ind: nat)
    requires Sane(ts) && Here(ts, lo, i, br, ind) && ts[i].kind.Eof?
    ensures ind == 0
  {
    NetSplit(ts, 0, lo, i);
    assert Net(ts, 0, i + 1) == Net(ts, 0, i);
  }

  lemma ClosedInside(ts: seq<Tok>, lo: nat, i: nat, ind: nat)
    requires Sane(ts) && Here(ts, lo, i, 0, ind) && ts[i].kind.Newline? && 0 < ind <= Closers(ts, i + 1)
    ensures var hi := i + 1 + ind; hi < |ts| && Net(ts, lo, hi) == 0 && Inside(ts, lo, hi)
  {
    var hi := i + 1 + ind;
    hide LayoutOutside, BracketDepth, Unclosed, Closers;
    ClosersNet(ts, i + 1, ind);
    NetSplit(ts, lo, i + 1, hi);
    forall j: nat | lo <= j < hi
      ensures !ts[j].kind.Eof? && (ts[j].kind.Newline? || ts[j].kind.Dedent? ==> Net(ts, lo, j) > 0)
    {
      if i < j {
        NetSplit(ts, lo, i + 1, j);
      }
    }
    assert ts[hi - 1].kind.Dedent?;
  }

  /** A NEWLINE whose DEDENTs close every level entered. */
  lemma HereClosed(ts: seq<Tok>, lo: nat, i: nat, ind: nat)
    requires Sane(ts) && Here(ts, lo, i, 0, ind) && ts[i].kind.Newline? && 0 < ind <= Closers(ts, i + 1)
    ensures var hi := i + 1 + ind;
            && lo <= hi < |ts| && Net(ts, lo, hi) == 0 && Inside(ts, lo, hi)
            && (Past(ts, lo, hi) <==> !ts[hi].kind.Dedent?)
  {
    var hi := i + 1 + ind;
    hide Sane, LayoutOutside, BracketDepth, Closers, Net;
    ClosedInside(ts, lo, i, ind);
    if ts[hi].kind.Dedent? {
      ClosersBeyond(ts, i + 1, ind);
      ClosersNet(ts, i + 1, ind);
    } else {
      ClosersExact(ts, i + 1, ind);
      assert Net(ts, lo, i) == hi - i - 1 == Closers(ts, i + 1);
    }
  }

  /** One more DEDENT in the row than the run consumed. */
  lemma {:induction false} ClosersBeyond(ts: seq<Tok>, i: nat, n: nat)
    requires i <= |ts| && n <= Closers(ts, i) && i + n < |ts| && ts[i + n].kind.Dedent?
    ensures Closers(ts, i) > n
    decreases n
  {
    if n > 0 {
      ClosersBeyond(ts, i + 1, n - 1);
    }
  }

  class Parser {
    const tok: seq<Tok>
    var i: nat
    var sep: bool

    ghost predicate Valid()
      reads this
    {
      i < |tok| && Sane(tok)
    }

    constructor (tok: seq<Tok>)
      requires Sane(tok)
      ensures Valid() && this.tok == tok && i == 0 && !sep
    {
      this.tok, i, sep := tok, 0, false;
    }

    method Bump()
      requires Valid() && !tok[i].kind.Eof?
      modifies this`i
      ensures Valid() && i == old(i) + 1
    {
      i := i + 1;
    }

    /** The DEDENTs right after the current token. */
    method CountClosers() returns (d: nat)
      requires Valid() && !tok[i].kind.Eof?
      ensures d == Closers(tok, i + 1)
    {
      d := 0;
      while i + 1 + d < |tok| && tok[i + 1 + d].kind.Dedent?
        invariant i + 1 + d <= |tok| && Closers(tok, i + 1) == d + Closers(tok, i + 1 + d)
      {
        d := d + 1;
      }
    }

    /** Steps over a NEWLINE and `ind` DEDENTs behind it. */
    method CloseLevels(ind: nat)
      requires Valid() && tok[i].kind.Newline? && ind <= Closers(tok, i + 1)
      modifies this`i
      ensures Valid() && i == old(i) + 1 + ind
    {
      hide Sane, Closers;
      ghost var start := i;
      SaneEof(tok);
      ghost var first := i + 1;
      Bump();
      var j := 0;
      while j < ind
        invariant Valid() && j <= ind && i == first + j
      {
        ClosersAt(tok, first, j);
        Bump();
        j := j + 1;
      }
    }

    /**
      The run skipped holds no boundary of its own block and ends at the nesting it began with;
      `sep` is raised exactly when the run ends just past the levels it entered.
     */
    method ResyncToBoundary()
      requires Valid()
      modifies this
      ensures Valid() && old(i) <= i
      ensures Net(tok, old(i), i) == 0 && Inside(tok, old(i), i)
      ensures Boundary(tok, old(i), i) && sep == (old(sep) || Past(tok, old(i), i))
    {
      hide Sane, Closers, Past, Here, Inside, Net;
      SaneEof(tok);
      ghost var lo := i;
      var br, ind := 0, 0;
      HereStart(tok, lo);
      while !tok[i].kind.Eof?
        invariant Valid() && 0 <= br && 0 <= ind && sep == old(sep) && Here(tok, lo, i, br, ind)
        decreases |tok| - i
      {
        if br == 0 && tok[i].kind.Indent? {
          HereIndent(tok, lo, i, ind);
          ind := ind + 1;
        } else if br == 0 && tok[i].kind.Dedent? {
          if ind == 0 {
            BoundaryHere(tok, lo, i, br);
            return;
          }
          HereDedent(tok, lo, i, ind);
          ind := ind - 1;
        } else if br == 0 && tok[i].kind.Newline? {
          if ind == 0 {
            BoundaryHere(tok, lo, i, br);
            return;
          }
          var d := CountClosers();
          if d >= ind {
            HereClosed(tok, lo, i, ind);
            CloseLevels(ind);
            if tok[i].kind.Dedent? {
              return;
            }
            sep := true;
            return;
          }
          HereNewline(tok, lo, i, ind);
        } else {
          HereOther(tok, lo, i, br, ind);
          if tok[i].kind.Open? {
            br := br + 1;
          } else if tok[i].kind.Close? && br > 0 {
            br := br - 1;
          }
        }
        Bump();
      }
      HereEof(tok, lo, i, br, ind);
      BoundaryHere(tok, lo, i, br);
    }
  }

  lemma SaneEof(ts: seq<Tok>)
    requires Sane(ts)
    ensures |ts| > 0 && forall i: nat | i < |ts| :: ts[i].kind.Eof? <==> i == |ts| - 1
  {
  }

  lemma BoundaryHere(ts: seq<Tok>, lo: nat, i: nat, br: nat)
    requires Here(ts, lo, i, br, 0) && (ts[i].kind.Eof? || ts[i].kind.Newline? || ts[i].kind.Dedent?)
    ensures lo <= i && Net(ts, lo, i) == 0 && Inside(ts, lo, i) && !Past(ts, lo, i)
  {
  }

  lemma ClosersExact(ts: seq<Tok>, i: nat, n: nat)
    requires i + n < |ts| && n <= Closers(ts, i) && !ts[i + n].kind.Dedent?
    ensures Closers(ts, i) == n
  {
    if n < Closers(ts, i) {
      ClosersAt(ts, i, n);
    }
  }

  // ---------------------------------------------------------------- what the filter hands over

  lemma {:induction false} NestNet(cols: seq<nat>, out: seq<Tok>)
    requires cols != [] && Nest(cols, out) != []
    ensures |Nest(cols, out)| == |cols| + Net(out, 0, |out|)
    decreases |out|
  {
    if out != [] {
      assert NestOne(cols, out[0]) != [];
      NestNet(NestOne(cols, out[0]), out[1..]);
      NetSplit(out, 0, 1, |out|);
      NetShift(out, 1, |out|);
    }
  }

  lemma {:induction false} NetShift(ts: seq<Tok>, lo: nat, hi: nat)
    requires lo <= hi <= |ts|
    ensures Net(ts, lo, hi) == Net(ts[lo..], 0, hi - lo)
    decreases hi
  {
    if lo < hi {
      NetShift(ts, lo, hi - 1);
      assert ts[lo..][hi - lo - 1] == ts[hi - 1];
    }
  }

  lemma {:induction false} NetPrefix(ts: seq<Tok>, hi: nat, lo: nat)
    requires hi <= lo <= |ts|
    ensures Net(ts[..lo], 0, hi) == Net(ts, 0, hi)
    decreases hi
  {
    if hi > 0 {
      NetPrefix(ts, hi - 1, lo);
    }
  }

  lemma NeverNegative(out: seq<Tok>, hi: nat)
    requires Nest([1], out) == [1] && hi <= |out|
    ensures Net(out, 0, hi) >= 0
  {
    NestConcat([1], out[..hi], out[hi..]);
    assert out == out[..hi] + out[hi..];
    assert Nest([1], out[..hi]) != [];
    NestNet([1], out[..hi]);
    NetPrefix(out, hi, hi);
  }

  lemma {:induction false} SourceKeeps(out: seq<Tok>, i: nat)
    requires i < |out| && !IsLayout(out[i])
    ensures out[i] in Source(out)
  {
    if i > 0 {
      SourceKeeps(out[1..], i - 1);
    }
  }

  lemma OnlyLastIsEof(ts: seq<Tok>)
    requires Scanned(ts)
    ensures var out := Output(ts);
            |out| > 0 && forall i: nat | i < |out| :: out[i].kind.Eof? <==> i == |out| - 1
  {
    hide Run, Step, LineOf, Write, Source;
    ScannedParts(ts);
    var n := |ts|;
    RunConserves(ts, n - 1);
    RunStep(ts, n);
    var p := Run(ts, n - 1);
    var w := Write(LineOf(p.st, ts[n - 1]), ts[n - 1]);
    WriteShape(LineOf(p.st, ts[n - 1]), ts[n - 1]);
    StepShape(p.st, ts[n - 1]);
    var out := p.out + (w + [ts[n - 1]]);
    assert Output(ts) == out;
    forall i: nat | i < |out|
      ensures out[i].kind.Eof? <==> i == |out| - 1
    {
      if i < |p.out| {
        if !IsLayout(p.out[i]) {
          SourceKeeps(p.out, i);
        }
      } else if i < |out| - 1 {
        assert out[i] == w[i - |p.out|];
      }
    }
  }

  lemma StepShape(st: State, t: Tok)
    requires |st.stack| > 0
    ensures Step(st, t).out == Write(LineOf(st, t), t) + [t]
  {
  }

  /** Every stream the filter emits with no bracket group reported meets what recovery asks. */
  lemma FilterFeedsRecovery(ts: seq<Tok>)
    requires Scanned(ts) && NoBracketFault(Faults(ts))
    ensures Sane(Output(ts))
  {
    hide Run, Scanned, Nest, LayoutOutside, NoBracketFault, Net;
    var out := Output(ts);
    Balanced(ts);
    LayoutOutsideBrackets(ts);
    OnlyLastIsEof(ts);
    NestNet([1], out);
    forall hi: nat | hi <= |out|
      ensures Net(out, 0, hi) >= 0
    {
      NeverNegative(out, hi);
    }
  }
}
