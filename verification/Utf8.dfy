/**
  UTF-8 validation (grammar/c/wok_utf8.c:23-126, runtime/wok_utf8.c:7-36): two copies of one automaton,
  a word-at-a-time path over ASCII and a cut at a codepoint boundary, against the syntax of
  section 4 of RFC 3629.
*/
module Utf8 {

  type Byte = bv8

  // ---------------------------------------------------------------- the standard

  function Val(b: Byte): (v: nat)
    ensures v < 256
  {
    b as nat
  }

  predicate In(b: Byte, lo: nat, hi: nat)
  {
    lo <= Val(b) <= hi
  }

  predicate Tail(b: Byte)
  {
    In(b, 0x80, 0xBF)
  }

  /** The second byte a three-byte lead admits, and a four-byte lead. */
  predicate Second3(lead: Byte, b: Byte)
  {
    || (In(lead, 0xE0, 0xE0) && In(b, 0xA0, 0xBF))
    || (In(lead, 0xE1, 0xEC) && Tail(b))
    || (In(lead, 0xED, 0xED) && In(b, 0x80, 0x9F))
    || (In(lead, 0xEE, 0xEF) && Tail(b))
  }

  predicate Second4(lead: Byte, b: Byte)
  {
    || (In(lead, 0xF0, 0xF0) && In(b, 0x90, 0xBF))
    || (In(lead, 0xF1, 0xF3) && Tail(b))
    || (In(lead, 0xF4, 0xF4) && In(b, 0x80, 0x8F))
  }

  /** The length of the character that starts at `i`, or 0. */
  function CharLen(s: seq<Byte>, i: nat): (n: nat)
    requires i <= |s|
    ensures i + n <= |s| && n <= 4
  {
    if i < |s| && In(s[i], 0x00, 0x7F) then 1
    else if i + 1 < |s| && In(s[i], 0xC2, 0xDF) && Tail(s[i + 1]) then 2
    else if i + 2 < |s| && Second3(s[i], s[i + 1]) && Tail(s[i + 2]) then 3
    else if i + 3 < |s| && Second4(s[i], s[i + 1]) && Tail(s[i + 2]) && Tail(s[i + 3]) then 4
    else 0
  }

  /** From `i` on, a sequence of characters and nothing else. */
  predicate WellFormed(s: seq<Byte>, i: nat)
    requires i <= |s|
    decreases |s| - i
  {
    i == |s| || (CharLen(s, i) > 0 && WellFormed(s, i + CharLen(s, i)))
  }

  /** The first offset at which no character starts, or the length. */
  function FirstBad(s: seq<Byte>, i: nat): (r: nat)
    requires i <= |s|
    ensures i <= r <= |s|
    decreases |s| - i
  {
    if CharLen(s, i) == 0 then i else FirstBad(s, i + CharLen(s, i))
  }

  lemma {:induction false} GoodToTheEnd(s: seq<Byte>, i: nat)
    requires i <= |s|
    ensures FirstBad(s, i) == |s| <==> WellFormed(s, i)
    decreases |s| - i
  {
    if CharLen(s, i) > 0 {
      GoodToTheEnd(s, i + CharLen(s, i));
    }
  }

  // ---------------------------------------------------------------- the automaton

  const ACCEPT: nat := 0
  const REJECT: nat := 12

  /** The front end's copy: character classes sixteen a row, transitions a state a row. */
  const CLASSES: seq<seq<nat>> := [
    [0, 0, 0, 0, 0, 0, 0, 0, 0, 0, 0, 0, 0, 0, 0, 0],
    [0, 0, 0, 0, 0, 0, 0, 0, 0, 0, 0, 0, 0, 0, 0, 0],
    [0, 0, 0, 0, 0, 0, 0, 0, 0, 0, 0, 0, 0, 0, 0, 0],
    [0, 0, 0, 0, 0, 0, 0, 0, 0, 0, 0, 0, 0, 0, 0, 0],
    [0, 0, 0, 0, 0, 0, 0, 0, 0, 0, 0, 0, 0, 0, 0, 0],
    [0, 0, 0, 0, 0, 0, 0, 0, 0, 0, 0, 0, 0, 0, 0, 0],
    [0, 0, 0, 0, 0, 0, 0, 0, 0, 0, 0, 0, 0, 0, 0, 0],
    [0, 0, 0, 0, 0, 0, 0, 0, 0, 0, 0, 0, 0, 0, 0, 0],
    [1, 1, 1, 1, 1, 1, 1, 1, 1, 1, 1, 1, 1, 1, 1, 1],
    [9, 9, 9, 9, 9, 9, 9, 9, 9, 9, 9, 9, 9, 9, 9, 9],
    [7, 7, 7, 7, 7, 7, 7, 7, 7, 7, 7, 7, 7, 7, 7, 7],
    [7, 7, 7, 7, 7, 7, 7, 7, 7, 7, 7, 7, 7, 7, 7, 7],
    [8, 8, 2, 2, 2, 2, 2, 2, 2, 2, 2, 2, 2, 2, 2, 2],
    [2, 2, 2, 2, 2, 2, 2, 2, 2, 2, 2, 2, 2, 2, 2, 2],
    [10, 3, 3, 3, 3, 3, 3, 3, 3, 3, 3, 3, 3, 4, 3, 3],
    [11, 6, 6, 6, 5, 8, 8, 8, 8, 8, 8, 8, 8, 8, 8, 8]]

  const STATES: seq<seq<nat>> := [
    [0, 12, 24, 36, 60, 96, 84, 12, 12, 12, 48, 72],
    [12, 12, 12, 12, 12, 12, 12, 12, 12, 12, 12, 12],
    [12, 0, 12, 12, 12, 12, 12, 0, 12, 0, 12, 12],
    [12, 24, 12, 12, 12, 12, 12, 24, 12, 24, 12, 12],
    [12, 12, 12, 12, 12, 12, 12, 24, 12, 12, 12, 12],
    [12, 24, 12, 12, 12, 12, 12, 12, 12, 24, 12, 12],
    [12, 12, 12, 12, 12, 12, 12, 36, 12, 36, 12, 12],
    [12, 36, 12, 12, 12, 12, 12, 36, 12, 36, 12, 12],
    [12, 36, 12, 12, 12, 12, 12, 12, 12, 12, 12, 12]]

  /** The runtime's copy, laid out thirty-two and twenty-four a row. */
  const RT_CLASSES: seq<seq<nat>> := [
    [0, 0, 0, 0, 0, 0, 0, 0, 0, 0, 0, 0, 0, 0, 0, 0, 0, 0, 0, 0, 0, 0, 0, 0, 0, 0, 0, 0, 0, 0, 0, 0],
    [0, 0, 0, 0, 0, 0, 0, 0, 0, 0, 0, 0, 0, 0, 0, 0, 0, 0, 0, 0, 0, 0, 0, 0, 0, 0, 0, 0, 0, 0, 0, 0],
    [0, 0, 0, 0, 0, 0, 0, 0, 0, 0, 0, 0, 0, 0, 0, 0, 0, 0, 0, 0, 0, 0, 0, 0, 0, 0, 0, 0, 0, 0, 0, 0],
    [0, 0, 0, 0, 0, 0, 0, 0, 0, 0, 0, 0, 0, 0, 0, 0, 0, 0, 0, 0, 0, 0, 0, 0, 0, 0, 0, 0, 0, 0, 0, 0],
    [1, 1, 1, 1, 1, 1, 1, 1, 1, 1, 1, 1, 1, 1, 1, 1, 9, 9, 9, 9, 9, 9, 9, 9, 9, 9, 9, 9, 9, 9, 9, 9],
    [7, 7, 7, 7, 7, 7, 7, 7, 7, 7, 7, 7, 7, 7, 7, 7, 7, 7, 7, 7, 7, 7, 7, 7, 7, 7, 7, 7, 7, 7, 7, 7],
    [8, 8, 2, 2, 2, 2, 2, 2, 2, 2, 2, 2, 2, 2, 2, 2, 2, 2, 2, 2, 2, 2, 2, 2, 2, 2, 2, 2, 2, 2, 2, 2],
    [10, 3, 3, 3, 3, 3, 3, 3, 3, 3, 3, 3, 3, 4, 3, 3, 11, 6, 6, 6, 5, 8, 8, 8, 8, 8, 8, 8, 8, 8, 8, 8]]

  const RT_STATES: seq<seq<nat>> := [
    [0, 12, 24, 36, 60, 96, 84, 12, 12, 12, 48, 72, 12, 12, 12, 12, 12, 12, 12, 12, 12, 12, 12, 12],
    [12, 0, 12, 12, 12, 12, 12, 0, 12, 0, 12, 12, 12, 24, 12, 12, 12, 12, 12, 24, 12, 24, 12, 12],
    [12, 12, 12, 12, 12, 12, 12, 24, 12, 12, 12, 12, 12, 24, 12, 12, 12, 12, 12, 12, 12, 24, 12, 12],
    [12, 12, 12, 12, 12, 12, 12, 36, 12, 36, 12, 12, 12, 36, 12, 12, 12, 12, 12, 36, 12, 36, 12, 12],
    [12, 36, 12, 12, 12, 12, 12, 12, 12, 12, 12, 12]]

  predicate IsState(state: nat)
  {
    state % 12 == 0 && state <= 96
  }

  function ByteClass(v: nat): nat
    requires v < 256
  {
    assert |CLASSES| == 16 && |CLASSES[v / 16]| == 16;
    CLASSES[v / 16][v % 16]
  }

  function RtByteClass(v: nat): nat
    requires v < 256
  {
    assert |RT_CLASSES| == 8 && |RT_CLASSES[v / 32]| == 32;
    RT_CLASSES[v / 32][v % 32]
  }

  /** What the class rows say, byte range by byte range. */
  function RangeClass(v: nat): (c: nat)
    ensures c < 12
  {
    if v < 0x80 then 0 else if v < 0x90 then 1 else if v < 0xA0 then 9 else if v < 0xC0 then 7
    else if v < 0xC2 then 8 else if v < 0xE0 then 2
    else if v == 0xE0 then 10 else if v == 0xED then 4 else if v < 0xF0 then 3
    else if v == 0xF0 then 11 else if v < 0xF4 then 6 else if v == 0xF4 then 5 else 8
  }

  lemma ClassIsLow(v: nat)
    requires v < 0xC0
    ensures ByteClass(v) == RangeClass(v)
  {
  }

  lemma ClassIsHigh(v: nat)
    requires 0xC0 <= v < 256
    ensures ByteClass(v) == RangeClass(v)
  {
  }

  lemma RtClassIsLow(v: nat)
    requires v < 0xC0
    ensures RtByteClass(v) == RangeClass(v)
  {
  }

  lemma RtClassIsHigh(v: nat)
    requires 0xC0 <= v < 256
    ensures RtByteClass(v) == RangeClass(v)
  {
  }

  function Transition(state: nat, class_: nat): nat
    requires IsState(state) && class_ < 12
  {
    assert |STATES| == 9 && |STATES[(state + class_) / 12]| == 12;
    STATES[(state + class_) / 12][(state + class_) % 12]
  }

  function RtTransition(state: nat, class_: nat): nat
    requires IsState(state) && class_ < 12
  {
    var k := state + class_;
    assert |RT_STATES| == 5 && (k / 24 < 4 ==> |RT_STATES[k / 24]| == 24) && |RT_STATES[4]| == 12;
    RT_STATES[k / 24][k % 24]
  }

  /** What each state still waits for. */
  function Meaning(state: nat, class_: nat): nat
  {
    if state == 0 then
      if class_ == 0 then 0 else if class_ == 2 then 24 else if class_ == 3 then 36 else if class_ == 4 then 60
      else if class_ == 5 then 96 else if class_ == 6 then 84 else if class_ == 10 then 48
      else if class_ == 11 then 72 else 12
    else if state == 24 then (if class_ == 1 || class_ == 7 || class_ == 9 then 0 else 12)
    else if state == 36 then (if class_ == 1 || class_ == 7 || class_ == 9 then 24 else 12)
    else if state == 48 then (if class_ == 7 then 24 else 12)
    else if state == 60 then (if class_ == 1 || class_ == 9 then 24 else 12)
    else if state == 72 then (if class_ == 7 || class_ == 9 then 36 else 12)
    else if state == 84 then (if class_ == 1 || class_ == 7 || class_ == 9 then 36 else 12)
    else if state == 96 then (if class_ == 1 then 36 else 12)
    else 12
  }

  lemma StateRow(state: nat)
    requires IsState(state)
    ensures state in [0, 12, 24, 36, 48, 60, 72, 84, 96]
  {
    var k := state / 12;
    assert state == 12 * k;
  }

  lemma TransitionIs(state: nat, class_: nat)
    requires IsState(state) && class_ < 12
    ensures Transition(state, class_) == Meaning(state, class_)
  {
    StateRow(state);
    assert (state + class_) / 12 == state / 12 && (state + class_) % 12 == class_;
  }

  lemma RtTransitionLow(state: nat, class_: nat)
    requires IsState(state) && class_ < 12 && state <= 48
    ensures RtTransition(state, class_) == Meaning(state, class_)
  {
    StateRow(state);
  }

  lemma RtTransitionHigh(state: nat, class_: nat)
    requires IsState(state) && class_ < 12 && state > 48
    ensures RtTransition(state, class_) == Meaning(state, class_)
  {
    StateRow(state);
  }

  lemma MeaningIsState(state: nat, class_: nat)
    ensures IsState(Meaning(state, class_))
  {
  }

  function Next(state: nat, b: Byte): (r: nat)
    ensures IsState(r)
  {
    MeaningIsState(state, RangeClass(Val(b)));
    Meaning(state, RangeClass(Val(b)))
  }

  /** The two copies are one automaton. */
  lemma TablesAgree(state: nat, b: Byte)
    requires IsState(state)
    ensures ByteClass(Val(b)) < 12 && RtByteClass(Val(b)) < 12
    ensures Transition(state, ByteClass(Val(b))) == RtTransition(state, RtByteClass(Val(b))) == Next(state, b)
  {
    var v := Val(b);
    hide Transition, RtTransition, ByteClass, RtByteClass, Meaning, RangeClass, Val;
    if v < 0xC0 {
      ClassIsLow(v);
      RtClassIsLow(v);
    } else {
      ClassIsHigh(v);
      RtClassIsHigh(v);
    }
    TransitionIs(state, RangeClass(v));
    if state <= 48 {
      RtTransitionLow(state, RangeClass(v));
    } else {
      RtTransitionHigh(state, RangeClass(v));
    }
  }

  // ---------------------------------------------------------------- what a state waits for

  /** Continuation bytes at `i`. */
  predicate Tails(s: seq<Byte>, i: nat, n: nat)
  {
    i + n <= |s| && (n > 0 ==> Tail(s[i])) && (n > 1 ==> Tail(s[i + 1])) && (n > 2 ==> Tail(s[i + 2]))
  }

  /** The bytes that complete a character begun, the next one in `[lo, hi]`; 0 if they are not there. */
  function Then(s: seq<Byte>, i: nat, lo: nat, hi: nat, n: nat): nat
    requires i <= |s| && n <= 2
  {
    if i < |s| && In(s[i], lo, hi) && Tails(s, i + 1, n) then n + 1 else 0
  }

  /** How many bytes from `i` on complete the character the automaton is in; 0 if it cannot. */
  function Wait(state: nat, s: seq<Byte>, i: nat): (n: nat)
    requires i <= |s|
    ensures i + n <= |s| && n <= 4
  {
    if state == 0 then CharLen(s, i)
    else if state == 24 then Then(s, i, 0x80, 0xBF, 0)
    else if state == 36 then Then(s, i, 0x80, 0xBF, 1)
    else if state == 48 then Then(s, i, 0xA0, 0xBF, 1)
    else if state == 60 then Then(s, i, 0x80, 0x9F, 1)
    else if state == 72 then Then(s, i, 0x90, 0xBF, 2)
    else if state == 84 then Then(s, i, 0x80, 0xBF, 2)
    else if state == 96 then Then(s, i, 0x80, 0x8F, 2)
    else 0
  }

  /** The fewest bytes a state needs. */
  function Need(state: nat): nat
  {
    if state == 0 || state == 24 then 1
    else if state == 36 || state == 48 || state == 60 then 2
    else 3
  }

  /** One byte: reject, accept, or wait for one byte less. */
  function After(state: nat, s: seq<Byte>, i: nat): nat
    requires i < |s|
  {
    var next := Next(state, s[i]);
    if next == REJECT then 0
    else if next == ACCEPT then 1
    else if Wait(next, s, i + 1) > 0 then 1 + Wait(next, s, i + 1)
    else 0
  }

  lemma LeadStep(s: seq<Byte>, i: nat)
    requires i < |s|
    ensures Wait(0, s, i) == After(0, s, i)
  {
    hide Val;
  }

  lemma TailStep(state: nat, s: seq<Byte>, i: nat)
    requires IsState(state) && state != 0 && i < |s|
    ensures Wait(state, s, i) == After(state, s, i)
  {
    StateRow(state);
    hide Val;
  }

  lemma WaitStep(state: nat, s: seq<Byte>, i: nat)
    requires IsState(state) && i < |s|
    ensures Wait(state, s, i) == After(state, s, i)
    ensures var next := Next(state, s[i]);
            next != ACCEPT && next != REJECT ==> Need(next) <= 3 && (state != 0 ==> Need(next) < Need(state))
  {
    StateRow(state);
    hide Wait, After, RangeClass;
    if state == 0 {
      LeadStep(s, i);
    } else {
      TailStep(state, s, i);
    }
  }

  lemma WaitAtEnd(state: nat, s: seq<Byte>)
    ensures Wait(state, s, |s|) == 0
  {
  }

  // ---------------------------------------------------------------- the front end

  method DfaStep(state: nat, b: Byte) returns (next: nat)
    requires IsState(state)
    ensures next == Next(state, b)
  {
    TablesAgree(state, b);
    hide Transition, ByteClass, Next;
    next := Transition(state, ByteClass(Val(b)));
  }

  method WokUtf8SeqLen(p: seq<Byte>, i: nat) returns (len: nat)
    requires i <= |p|
    ensures len == CharLen(p, i)
  {
    hide Wait, Need, Next, CharLen, After;
    var state := ACCEPT;
    var limit := if |p| - i < 4 then |p| - i else 4;
    var k := 0;
    WaitIsLen(p, i);
    while k < limit
      invariant k <= limit && IsState(state) && (k > 0 ==> state != ACCEPT && state != REJECT)
      invariant CharLen(p, i) == if Wait(state, p, i + k) > 0 then k + Wait(state, p, i + k) else 0
      invariant k > 0 ==> k + Need(state) <= 4
    {
      WaitStep(state, p, i + k);
      AfterIs(state, p, i + k);
      var next := DfaStep(state, p[i + k]);
      if next == REJECT {
        return 0;
      }
      if next == ACCEPT {
        return k + 1;
      }
      state, k := next, k + 1;
    }
    NeedSome(state);
    WaitAtEnd(state, p);
    len := 0;
  }

  lemma WaitIsLen(s: seq<Byte>, i: nat)
    requires i <= |s|
    ensures Wait(ACCEPT, s, i) == CharLen(s, i)
  {
  }

  lemma NeedSome(state: nat)
    ensures Need(state) > 0
  {
  }

  lemma AfterIs(state: nat, s: seq<Byte>, i: nat)
    requires i < |s|
    ensures var next := Next(state, s[i]);
            After(state, s, i) ==
            if next == REJECT then 0 else if next == ACCEPT then 1
            else if Wait(next, s, i + 1) > 0 then 1 + Wait(next, s, i + 1) else 0
  {
  }

  /** Eight bytes as one little-endian word. */
  function Word(p: seq<Byte>, i: nat): bv64
    requires i + 8 <= |p|
  {
    Pack(p[i], p[i + 1], p[i + 2], p[i + 3], p[i + 4], p[i + 5], p[i + 6], p[i + 7])
  }

  function Pack(b0: Byte, b1: Byte, b2: Byte, b3: Byte, b4: Byte, b5: Byte, b6: Byte, b7: Byte): bv64
  {
    (b0 as bv64) | ((b1 as bv64) << 8) | ((b2 as bv64) << 16) | ((b3 as bv64) << 24) |
    ((b4 as bv64) << 32) | ((b5 as bv64) << 40) | ((b6 as bv64) << 48) | ((b7 as bv64) << 56)
  }

  predicate HighBits(w: bv64)
  {
    w & 0x8080808080808080 != 0
  }

  predicate Ascii(b: Byte)
  {
    b < 0x80
  }

  lemma PackAscii(b0: Byte, b1: Byte, b2: Byte, b3: Byte, b4: Byte, b5: Byte, b6: Byte, b7: Byte)
    ensures !HighBits(Pack(b0, b1, b2, b3, b4, b5, b6, b7)) <==>
            Ascii(b0) && Ascii(b1) && Ascii(b2) && Ascii(b3) && Ascii(b4) && Ascii(b5) && Ascii(b6) && Ascii(b7)
  {
  }

  lemma AsciiIsOne(s: seq<Byte>, i: nat)
    requires i < |s| && Ascii(s[i])
    ensures CharLen(s, i) == 1
  {
    assert Val(s[i]) < 0x80;
  }

  lemma {:induction false} AsciiRun(s: seq<Byte>, i: nat, n: nat)
    requires i + n <= |s| && forall j: nat | i <= j < i + n :: Ascii(s[j])
    ensures FirstBad(s, i) == FirstBad(s, i + n)
    decreases n
  {
    hide CharLen, Ascii;
    if n > 0 {
      AsciiIsOne(s, i);
      AsciiRun(s, i + 1, n - 1);
    }
  }

  /** One word of ASCII never changes the answer. */
  lemma WordSkips(s: seq<Byte>, i: nat)
    requires i + 8 <= |s| && !HighBits(Word(s, i))
    ensures FirstBad(s, i) == FirstBad(s, i + 8)
  {
    PackAscii(s[i], s[i + 1], s[i + 2], s[i + 3], s[i + 4], s[i + 5], s[i + 6], s[i + 7]);
    hide HighBits, Pack, Ascii, FirstBad;
    forall j: nat | i <= j < i + 8
      ensures Ascii(s[j])
    {
      assert j == i || j == i + 1 || j == i + 2 || j == i + 3 || j == i + 4 || j == i + 5 || j == i + 6 || j == i + 7;
    }
    AsciiRun(s, i, 8);
  }

  /** Words of ASCII first, then one character by the automaton, and again. */
  method WokUtf8FindInvalid(p: seq<Byte>) returns (r: nat)
    ensures r == FirstBad(p, 0)
  {
    hide CharLen, HighBits, Word, Ascii;
    var i := 0;
    while i < |p|
      invariant i <= |p| && FirstBad(p, 0) == FirstBad(p, i)
    {
      while i + 8 <= |p| && !HighBits(Word(p, i))
        invariant i <= |p| && FirstBad(p, 0) == FirstBad(p, i)
        decreases |p| - i
      {
        WordSkips(p, i);
        i := i + 8;
      }
      if i >= |p| {
        break;
      }
      if Ascii(p[i]) {
        AsciiIsOne(p, i);
        i := i + 1;
      } else {
        var len := WokUtf8SeqLen(p, i);
        if len == 0 {
          return i;
        }
        i := i + len;
      }
    }
    r := |p|;
  }

  /** The whole buffer is accepted exactly when the standard admits it. */
  lemma FindInvalidIsExact(p: seq<Byte>)
    ensures FirstBad(p, 0) == |p| <==> WellFormed(p, 0)
  {
    GoodToTheEnd(p, 0);
  }

  // ---------------------------------------------------------------- cutting text

  /** What one step of the cut passes over; ill-formed bytes one by one. */
  function Hop(s: seq<Byte>, i: nat): (n: nat)
    requires i < |s|
    ensures n > 0 && i + n <= |s|
  {
    if CharLen(s, i) == 0 then 1 else CharLen(s, i)
  }

  function Cut(s: seq<Byte>, i: nat, max: nat): (r: nat)
    requires i <= |s|
    ensures i <= r <= |s|
    decreases |s| - i
  {
    if i == |s| || i + Hop(s, i) > max then i else Cut(s, i + Hop(s, i), max)
  }

  /** A character starts or the text ends at `b`, reading from `i`. */
  predicate Boundary(s: seq<Byte>, i: nat, b: nat)
    requires i <= |s|
    decreases |s| - i
  {
    i == b || (CharLen(s, i) > 0 && Boundary(s, i + CharLen(s, i), b))
  }

  lemma {:induction false} CutIsBoundary(s: seq<Byte>, i: nat, max: nat)
    requires i <= |s| && WellFormed(s, i) && i <= max
    ensures Boundary(s, i, Cut(s, i, max)) && Cut(s, i, max) <= max
    ensures forall b: nat | Boundary(s, i, b) && b <= max :: b <= Cut(s, i, max)
    decreases |s| - i
  {
    hide CharLen;
    if i < |s| {
      var next := i + CharLen(s, i);
      BoundaryAfter(s, i);
      if next <= max {
        CutIsBoundary(s, next, max);
      } else {
        BoundaryAfter(s, next);
      }
    } else {
      EndIsLast(s);
    }
  }

  lemma EndIsLast(s: seq<Byte>)
    ensures forall b: nat | Boundary(s, |s|, b) :: b == |s|
  {
  }

  /** No boundary lies before the position it is looked for from. */
  lemma {:induction false} BoundaryFrom(s: seq<Byte>, i: nat, b: nat)
    requires i <= |s| && Boundary(s, i, b)
    ensures i <= b
    decreases |s| - i
  {
    if i != b {
      BoundaryFrom(s, i + CharLen(s, i), b);
    }
    hide CharLen;
  }

  lemma BoundaryAfter(s: seq<Byte>, i: nat)
    requires i <= |s|
    ensures forall b: nat | Boundary(s, i, b) :: i <= b
    ensures forall b: nat | Boundary(s, i, b) && b != i :: CharLen(s, i) > 0 && i + CharLen(s, i) <= b
  {
    forall b: nat | Boundary(s, i, b)
      ensures i <= b && (b != i ==> CharLen(s, i) > 0 && i + CharLen(s, i) <= b)
    {
      BoundaryFrom(s, i, b);
      if b != i {
        BoundaryFrom(s, i + CharLen(s, i), b);
      }
    }
    hide CharLen;
  }

  method WokUtf8Truncate(p: seq<Byte>, max: nat) returns (r: nat)
    ensures r == if |p| <= max then |p| else Cut(p, 0, max)
  {
    hide CharLen;
    if |p| <= max {
      return |p|;
    }
    var i := 0;
    while i < |p|
      invariant i <= |p| && Cut(p, 0, max) == Cut(p, i, max)
    {
      var len := WokUtf8SeqLen(p, i);
      if len == 0 {
        len := 1;
      }
      if i + len > max {
        return i;
      }
      i := i + len;
    }
    r := i;
  }

  lemma {:induction false} WholeIsBoundary(s: seq<Byte>, i: nat)
    requires i <= |s| && WellFormed(s, i)
    ensures Boundary(s, i, |s|)
    decreases |s| - i
  {
    if i < |s| {
      WholeIsBoundary(s, i + CharLen(s, i));
    }
    hide CharLen;
  }

  lemma {:induction false} BoundaryInside(s: seq<Byte>, i: nat, b: nat)
    requires i <= |s| && Boundary(s, i, b)
    ensures b <= |s|
    decreases |s| - i
  {
    if i != b {
      BoundaryInside(s, i + CharLen(s, i), b);
    }
    hide CharLen;
  }

  /** On well-formed text the cut is the largest codepoint boundary not above `max`. */
  lemma TruncateIsLargest(s: seq<Byte>, max: nat)
    requires WellFormed(s, 0)
    ensures var r := if |s| <= max then |s| else Cut(s, 0, max);
            Boundary(s, 0, r) && r <= max && forall b: nat | Boundary(s, 0, b) && b <= max :: b <= r
  {
    hide CharLen, Cut, WellFormed;
    WholeIsBoundary(s, 0);
    CutIsBoundary(s, 0, max);
    forall b: nat | Boundary(s, 0, b)
      ensures b <= |s|
    {
      BoundaryInside(s, 0, b);
    }
  }

  // ---------------------------------------------------------------- the runtime

  /** The rest of the buffer completes what the automaton is in, and is well formed after it. */
  predicate Completes(state: nat, s: seq<Byte>, i: nat)
    requires i <= |s|
  {
    if state == ACCEPT then WellFormed(s, i) else Wait(state, s, i) > 0 && WellFormed(s, i + Wait(state, s, i))
  }

  lemma CompletesStep(state: nat, s: seq<Byte>, i: nat)
    requires IsState(state) && i < |s|
    ensures Completes(state, s, i) <==> Next(state, s[i]) != REJECT && Completes(Next(state, s[i]), s, i + 1)
  {
    WaitStep(state, s, i);
    AfterIs(state, s, i);
    WaitIsLen(s, i);
    WaitIsLen(s, i + 1);
    hide Wait, After, Next, CharLen;
  }

  lemma CompletesEnd(state: nat, s: seq<Byte>)
    ensures Completes(state, s, |s|) <==> state == ACCEPT
  {
    WaitAtEnd(state, s);
    hide Wait;
  }

  method WokValidateUtf8(bytes: seq<Byte>) returns (ok: bool)
    ensures ok <==> WellFormed(bytes, 0)
  {
    hide Next, WellFormed, Wait, Completes, RtTransition, RtByteClass, Transition, ByteClass;
    var state := ACCEPT;
    CompletesStart(bytes);
    for i := 0 to |bytes|
      invariant IsState(state) && (WellFormed(bytes, 0) <==> Completes(state, bytes, i))
    {
      CompletesStep(state, bytes, i);
      TablesAgree(state, bytes[i]);
      var class_ := RtByteClass(Val(bytes[i]));
      state := RtTransition(state, class_);
      if state == REJECT {
        return false;
      }
    }
    CompletesEnd(state, bytes);
    ok := state == ACCEPT;
  }

  lemma CompletesStart(s: seq<Byte>)
    ensures Completes(ACCEPT, s, 0) <==> WellFormed(s, 0)
  {
  }
}
