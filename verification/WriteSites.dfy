/**
  What the walk of grammar/c/wok_resolve.c:940-1185 says of each write, told by where the write stands in the
  tree: the constructs around it, from the root down, decide the verdict, and nothing else does.
*/
module WriteSites {
  import opened Tokens
  import opened WriteLocality

  // ---------------------------------------------------------------- places in a tree

  /** The right side of a binding, with a hole for it. */
  datatype BindHole = OfFunction(name: Name, args: List<Pat>) | OfName(name: Name) | OfPattern(pat: Pat)

  datatype StmtHole = InHandle(tag: Option<Name>) | InLet(bind: BindHole) | InDo

  /** A node with a hole for one of its children; `before` and `after` are that child's neighbours. */
  datatype Frame =
    | ValueOf(target: Option<Node>)
    | TargetOf(value: Node)
    | VarBody(before: List<Clause>, name: Name, after: List<Clause>)
    | OpBody(before: List<Clause>, args: List<Pat>, k: Option<Name>, after: List<Clause>)
    | InBlock(earlier: List<Stmt>, stmt: StmtHole, later: List<Stmt>)
    | LambdaBody(args: List<Pat>)
    | LetBound(hole: BindHole, body: Node)
    | LetBody(bind: Bind)
    | HandlerOf(tag: Option<Name>, body: Node)
    | HandleBody(handler: Node, tag: Option<Name>)
    | UseBody(names: List<Name>)
    | AltWhere(pat: Pat, left: List<Node>, right: List<Node>, body: Node)
    | AltBody(pat: Pat, wheres: List<Node>)
    | EquationWhere(args: List<Pat>, left: List<Node>, right: List<Node>, body: Node)
    | EquationBody(args: List<Pat>, wheres: List<Node>)
    | Child(left: List<Node>, right: List<Node>)

  function Around<T>(before: List<T>, x: T, after: List<T>): List<T>
    decreases before
  {
    if before.Nil? then Cons(x, after) else Cons(before.head, Around(before.tail, x, after))
  }

  function FillBind(h: BindHole, n: Node): Bind
  {
    match h
    case OfFunction(f, args) => FunctionBind(f, args, n)
    case OfName(x) => NameBind(x, n)
    case OfPattern(p) => PatternBind(p, n)
  }

  function FillStmt(h: StmtHole, n: Node): Stmt
  {
    match h
    case InHandle(tag) => Handle(n, tag)
    case InLet(b) => Stmt.Let(FillBind(b, n))
    case InDo => Do(n)
  }

  function Fill(f: Frame, n: Node): Node
  {
    match f
    case ValueOf(target) => Node.Assign(target, n)
    case TargetOf(value) => Node.Assign(Some(n), value)
    case VarBody(before, x, after) => Handler(Around(before, VarClause(x, n), after))
    case OpBody(before, args, k, after) => Handler(Around(before, OpClause(args, k, n), after))
    case InBlock(earlier, s, later) => Block(Around(earlier, FillStmt(s, n), later))
    case LambdaBody(args) => Node.Lambda(args, n)
    case LetBound(h, body) => LetIn(FillBind(h, n), body)
    case LetBody(b) => LetIn(b, n)
    case HandlerOf(tag, body) => HandleIn(n, tag, body)
    case HandleBody(h, tag) => HandleIn(h, tag, n)
    case UseBody(names) => UseIn(names, n)
    case AltWhere(p, left, right, body) => Alt(p, Around(left, n, right), body)
    case AltBody(p, ws) => Alt(p, ws, n)
    case EquationWhere(args, left, right, body) => Equation(args, Around(left, n, right), body)
    case EquationBody(args, ws) => Equation(args, ws, n)
    case Child(left, right) => Other(Around(left, n, right))
  }

  /** A tree with `n` at a place in it; the place is the frames from the root down. */
  function Plug(place: seq<Frame>, n: Node): Node
    decreases |place|
  {
    if place == [] then n else Plug(place[..|place| - 1], Fill(place[|place| - 1], n))
  }

  // ---------------------------------------------------------------- what a frame binds, and what it bounds

  predicate InPat(p: Pat, x: Name)
    decreases p
  {
    match p
    case PVar(y) => x == y
    case PAs(y, q) => x == y || InPat(q, x)
    case PNode(ps) => InPats(ps, x)
  }

  predicate InPats(ps: List<Pat>, x: Name)
    decreases ps
  {
    ps.Cons? && (InPat(ps.head, x) || InPats(ps.tail, x))
  }

  /** What follows a `let` sees of it. */
  predicate Introduces(b: Bind, x: Name)
  {
    match b
    case FunctionBind(f, _, _) => x == f
    case NameBind(y, _) => x == y
    case PatternBind(p, _) => InPat(p, x)
  }

  predicate Leaves(s: Stmt, x: Name)
  {
    match s
    case Handle(_, tag) => tag == Some(x)
    case Use(names) => Member(x, names)
    case Let(b) => Introduces(b, x)
    case Do(_) => false
  }

  predicate SomeLeaves(ss: List<Stmt>, x: Name)
  {
    ss.Cons? && (Leaves(ss.head, x) || SomeLeaves(ss.tail, x))
  }

  /** A function sees its own name and its parameters; the right side of any other binding sees neither. */
  predicate Within(h: BindHole, x: Name)
  {
    h.OfFunction? && (x == h.name || InPats(h.args, x))
  }

  /** The frame binds the name, as a value, for what stands in its hole. */
  predicate ValueHere(f: Frame, x: Name)
  {
    match f
    case ValueOf(_) => false
    case TargetOf(_) => false
    case VarBody(_, _, _) => false
    case OpBody(_, args, k, _) => InPats(args, x) || k == Some(x)
    case InBlock(earlier, s, _) => SomeLeaves(earlier, x) || (s.InLet? && Within(s.bind, x))
    case LambdaBody(args) => InPats(args, x)
    case LetBound(h, _) => Within(h, x)
    case LetBody(b) => Introduces(b, x)
    case HandlerOf(_, _) => false
    case HandleBody(_, tag) => tag == Some(x)
    case UseBody(names) => Member(x, names)
    case AltWhere(p, _, _, _) => InPat(p, x)
    case AltBody(p, _) => InPat(p, x)
    case EquationWhere(args, _, _, _) => InPats(args, x)
    case EquationBody(args, _) => InPats(args, x)
    case Child(_, _) => false
  }

  predicate HasVar(cs: List<Clause>, x: Name)
  {
    cs.Cons? && ((cs.head.VarClause? && cs.head.name == x) || HasVar(cs.tail, x))
  }

  /** The body of a clause, of a literal that declares the name. */
  predicate Declares(f: Frame, x: Name)
  {
    f.OpBody? && (HasVar(f.before, x) || HasVar(f.after, x))
  }

  /** The initialiser of a `var`, of a literal that declares the name. */
  predicate Initialises(f: Frame, x: Name)
  {
    f.VarBody? && (f.name == x || HasVar(f.before, x) || HasVar(f.after, x))
  }

  /** Where a function body begins: a lambda, an equation, a `let` with parameters, a clause. */
  predicate Boundary(f: Frame)
  {
    || f.OpBody? || f.LambdaBody? || f.EquationWhere? || f.EquationBody?
    || (f.LetBound? && f.hole.OfFunction?)
    || (f.InBlock? && f.stmt.InLet? && f.stmt.bind.OfFunction?)
  }

  // ---------------------------------------------------------------- the verdict, by the place

  /** The nearest boundary is that clause body, of a literal that declares the name. */
  ghost predicate OwnedAt(place: seq<Frame>, i: nat, x: Name)
  {
    i < |place| && Declares(place[i], x) && forall j: nat | i < j < |place| :: !Boundary(place[j])
  }

  /** Something from there on in binds the name as a value. */
  ghost predicate HiddenFrom(place: seq<Frame>, i: nat, x: Name)
  {
    exists j: nat | i <= j < |place| :: ValueHere(place[j], x)
  }

  /** The innermost `var` initialiser around is one of a literal that declares the name. */
  ghost predicate EarlyAt(place: seq<Frame>, i: nat, x: Name)
  {
    i < |place| && Initialises(place[i], x) && forall j: nat | i < j < |place| :: !place[j].VarBody?
  }

  ghost function VerdictAt(place: seq<Frame>, x: Name): Verdict
  {
    if exists i: nat :: OwnedAt(place, i, x) && !HiddenFrom(place, i, x) then Fine
    else if exists i: nat :: OwnedAt(place, i, x) then Shadowed
    else if exists i: nat | i < |place| :: Declares(place[i], x) then OutsideFrame
    else if HiddenFrom(place, 0, x) then NotAVar
    else if exists i: nat :: EarlyAt(place, i, x) then BeforeFrame
    else Unbound
  }

  // ---------------------------------------------------------------- the path of a place

  function IntoBind(h: BindHole, path: Path): Path
  {
    if h.OfFunction? then ExtendAll(Cons(Value(h.name), Cons(Function, path)), h.args) else path
  }

  function AfterStmts(ss: List<Stmt>, path: Path): Path
    decreases ss
  {
    if ss.Nil? then path else AfterStmts(ss.tail, AfterStmt(ss.head, path))
  }

  function VarsAround(before: List<Clause>, c: Clause, after: List<Clause>): List<Name>
  {
    VarsOf(Around(before, c, after))
  }

  function Into(f: Frame, path: Path): Path
  {
    match f
    case ValueOf(_) => path
    case TargetOf(_) => path
    case VarBody(before, x, after) => Cons(Initialiser(VarsAround(before, VarClause(x, Var(x)), after)), path)
    case OpBody(before, args, k, after) =>
      var vars := VarsAround(before, OpClause(args, k, Var("")), after);
      ExtendOption(ExtendAll(Cons(Body(vars), path), args), k)
    case InBlock(earlier, s, _) =>
      var here := AfterStmts(earlier, path);
      if s.InLet? then IntoBind(s.bind, here) else here
    case LambdaBody(args) => ExtendAll(Cons(Function, path), args)
    case LetBound(h, _) => IntoBind(h, path)
    case LetBody(b) => AfterBind(b, path)
    case HandlerOf(_, _) => path
    case HandleBody(_, tag) => ExtendOption(path, tag)
    case UseBody(names) => ExtendNames(path, names)
    case AltWhere(p, _, _, _) => Extend(path, p)
    case AltBody(p, _) => Extend(path, p)
    case EquationWhere(args, _, _, _) => ExtendAll(Cons(Function, path), args)
    case EquationBody(args, _) => ExtendAll(Cons(Function, path), args)
    case Child(_, _) => path
  }

  function PathOf(place: seq<Frame>): Path
    decreases |place|
  {
    if place == [] then Nil else Into(place[|place| - 1], PathOf(place[..|place| - 1]))
  }

  // ---------------------------------------------------------------- what value binders do to a path

  /** Value binders were put on the path; `b` says whether the name is among them. */
  ghost predicate Adds(path: Path, more: Path, x: Name, b: bool)
  {
    && (OwnVar(more, x) <==> OwnVar(path, x))
    && (SomeVar(more, x) <==> SomeVar(path, x))
    && (NotYet(more, x) <==> NotYet(path, x))
    && (BinderAt(more, x).Some? <==> b || BinderAt(path, x).Some?)
    && (Writable(more, x) <==> !b && Writable(path, x))
  }

  lemma AddsValue(path: Path, y: Name, x: Name)
    ensures Adds(path, Cons(Value(y), path), x, x == y)
  {
    BinderBelow(path, x);
  }

  lemma AddsMore(path: Path, mid: Path, more: Path, x: Name, a: bool, b: bool)
    requires Adds(path, mid, x, a) && Adds(mid, more, x, b)
    ensures Adds(path, more, x, a || b)
  {
  }

  lemma {:induction false} AddsPat(path: Path, p: Pat, x: Name)
    ensures Adds(path, Extend(path, p), x, InPat(p, x))
    decreases p
  {
    hide Adds;
    if p.PVar? {
      AddsValue(path, p.name, x);
    } else if p.PAs? {
      AddsValue(path, p.name, x);
      AddsPat(Cons(Value(p.name), path), p.pat, x);
      AddsMore(path, Cons(Value(p.name), path), Extend(path, p), x, x == p.name, InPat(p.pat, x));
    } else {
      AddsPats(path, p.children, x);
    }
  }

  lemma {:induction false} AddsPats(path: Path, ps: List<Pat>, x: Name)
    ensures Adds(path, ExtendAll(path, ps), x, InPats(ps, x))
    decreases ps
  {
    hide Adds;
    if ps.Nil? {
      AddsNone(path, x);
    } else {
      AddsPat(path, ps.head, x);
      AddsPats(Extend(path, ps.head), ps.tail, x);
      AddsMore(path, Extend(path, ps.head), ExtendAll(path, ps), x, InPat(ps.head, x), InPats(ps.tail, x));
    }
  }

  lemma AddsNone(path: Path, x: Name)
    ensures Adds(path, path, x, false)
  {
  }

  lemma {:induction false} AddsNames(path: Path, names: List<Name>, x: Name)
    ensures Adds(path, ExtendNames(path, names), x, Member(x, names))
    decreases names
  {
    hide Adds;
    if names.Nil? {
      AddsNone(path, x);
    } else {
      var mid := Cons(Value(names.head), path);
      AddsValue(path, names.head, x);
      AddsNames(mid, names.tail, x);
      AddsMore(path, mid, ExtendNames(path, names), x, x == names.head, Member(x, names.tail));
    }
  }

  lemma AddsOption(path: Path, name: Option<Name>, x: Name)
    ensures Adds(path, ExtendOption(path, name), x, name == Some(x))
  {
    hide Adds;
    if name.None? {
      AddsNone(path, x);
    } else {
      AddsValue(path, name.value, x);
    }
  }

  lemma AddsBind(path: Path, b: Bind, x: Name)
    ensures Adds(path, AfterBind(b, path), x, Introduces(b, x))
  {
    hide Adds;
    if b.PatternBind? {
      AddsPat(path, b.pat, x);
    } else {
      AddsValue(path, b.name, x);
    }
  }

  lemma AddsStmt(path: Path, s: Stmt, x: Name)
    ensures Adds(path, AfterStmt(s, path), x, Leaves(s, x))
  {
    hide Adds;
    if s.Handle? {
      AddsOption(path, s.tag, x);
    } else if s.Use? {
      AddsNames(path, s.binds, x);
    } else if s.Let? {
      AddsBind(path, s.bind, x);
    } else {
      AddsNone(path, x);
    }
  }

  lemma {:induction false} AddsStmts(path: Path, ss: List<Stmt>, x: Name)
    ensures Adds(path, AfterStmts(ss, path), x, SomeLeaves(ss, x))
    decreases ss
  {
    hide Adds;
    if ss.Nil? {
      AddsNone(path, x);
    } else {
      var mid := AfterStmt(ss.head, path);
      AddsStmt(path, ss.head, x);
      AddsStmts(mid, ss.tail, x);
      AddsMore(path, mid, AfterStmts(ss, path), x, Leaves(ss.head, x), SomeLeaves(ss.tail, x));
    }
  }

  // ---------------------------------------------------------------- what a frame does to a path

  lemma {:induction false} VarsHas(cs: List<Clause>, x: Name)
    ensures Member(x, VarsOf(cs)) <==> HasVar(cs, x)
  {
    if cs.Cons? {
      VarsHas(cs.tail, x);
    }
  }

  lemma {:induction false} HasVarAround(before: List<Clause>, c: Clause, after: List<Clause>, x: Name)
    ensures HasVar(Around(before, c, after), x) <==>
            HasVar(before, x) || (c.VarClause? && c.name == x) || HasVar(after, x)
    decreases before
  {
    if before.Cons? {
      HasVarAround(before.tail, c, after, x);
    }
  }

  /** A path seen through a frame. */
  ghost predicate Entered(f: Frame, path: Path, more: Path, x: Name)
  {
    && (OwnVar(more, x) <==> Declares(f, x) || (!Boundary(f) && OwnVar(path, x)))
    && (SomeVar(more, x) <==> Declares(f, x) || SomeVar(path, x))
    && (BinderAt(more, x).Some? <==> ValueHere(f, x) || Declares(f, x) || BinderAt(path, x).Some?)
    && (Writable(more, x) <==> !ValueHere(f, x) && (Declares(f, x) || (!Boundary(f) && Writable(path, x))))
    && (NotYet(more, x) <==> if f.VarBody? then Initialises(f, x) || SomeVar(path, x) else NotYet(path, x))
  }

  /** A function begins. */
  ghost predicate Begun(path: Path, more: Path, x: Name, b: bool)
  {
    && !OwnVar(more, x) && !Writable(more, x)
    && (SomeVar(more, x) <==> SomeVar(path, x))
    && (NotYet(more, x) <==> NotYet(path, x))
    && (BinderAt(more, x).Some? <==> b || BinderAt(path, x).Some?)
  }

  lemma FunctionBegins(path: Path, x: Name)
    ensures Begun(path, Cons(Function, path), x, false)
  {
    BinderBelow(path, x);
  }

  lemma BegunMore(path: Path, mid: Path, more: Path, x: Name, a: bool, b: bool)
    requires Begun(path, mid, x, a) && Adds(mid, more, x, b)
    ensures Begun(path, more, x, a || b)
  {
  }

  lemma BegunAfter(path: Path, mid: Path, more: Path, x: Name, a: bool, b: bool)
    requires Adds(path, mid, x, a) && Begun(mid, more, x, b)
    ensures Begun(path, more, x, a || b)
  {
  }

  lemma IntoFunction(h: BindHole, path: Path, x: Name)
    requires h.OfFunction?
    ensures Begun(path, IntoBind(h, path), x, Within(h, x))
  {
    hide Begun, Adds;
    var body := Cons(Function, path);
    var named := Cons(Value(h.name), body);
    FunctionBegins(path, x);
    AddsValue(body, h.name, x);
    BegunMore(path, body, named, x, false, x == h.name);
    AddsPats(named, h.args, x);
    BegunMore(path, named, IntoBind(h, path), x, x == h.name, InPats(h.args, x));
  }

  lemma IntoParams(args: List<Pat>, path: Path, x: Name)
    ensures Begun(path, ExtendAll(Cons(Function, path), args), x, InPats(args, x))
  {
    hide Begun, Adds;
    FunctionBegins(path, x);
    AddsPats(Cons(Function, path), args, x);
    BegunMore(path, Cons(Function, path), ExtendAll(Cons(Function, path), args), x, false, InPats(args, x));
  }

  lemma EnteredByAdding(f: Frame, path: Path, more: Path, x: Name)
    requires Adds(path, more, x, ValueHere(f, x)) && !Boundary(f) && !f.VarBody?
    ensures Entered(f, path, more, x)
  {
    hide Boundary, ValueHere;
    assert !Declares(f, x) by {
      OnlyOpBodies(f, x);
    }
  }

  lemma OnlyOpBodies(f: Frame, x: Name)
    ensures Declares(f, x) ==> f.OpBody? && Boundary(f)
  {
  }

  lemma EnteredByFunction(f: Frame, path: Path, more: Path, x: Name)
    requires Begun(path, more, x, ValueHere(f, x)) && Boundary(f) && !f.OpBody? && !f.VarBody?
    ensures Entered(f, path, more, x)
  {
    hide ValueHere;
  }

  lemma EntersBlock(f: Frame, path: Path, x: Name)
    requires f.InBlock?
    ensures Entered(f, path, Into(f, path), x)
  {
    hide Adds, Begun, Entered;
    var here := AfterStmts(f.earlier, path);
    AddsStmts(path, f.earlier, x);
    if Boundary(f) {
      IntoFunction(f.stmt.bind, here, x);
      BegunAfter(path, here, Into(f, path), x, SomeLeaves(f.earlier, x), Within(f.stmt.bind, x));
      EnteredByFunction(f, path, Into(f, path), x);
    } else {
      EnteredByAdding(f, path, here, x);
    }
  }

  lemma EntersOpBody(f: Frame, path: Path, x: Name)
    requires f.OpBody?
    ensures Entered(f, path, Into(f, path), x)
  {
    var clause := OpClause(f.args, f.k, Var(""));
    var vars := VarsAround(f.before, clause, f.after);
    var body := Cons(Body(vars), path);
    var inner := ExtendAll(body, f.args);
    VarsHas(Around(f.before, clause, f.after), x);
    HasVarAround(f.before, clause, f.after, x);
    BinderBelow(path, x);
    AddsPats(body, f.args, x);
    AddsOption(inner, f.k, x);
    AddsMore(body, inner, Into(f, path), x, InPats(f.args, x), f.k == Some(x));
    hide ExtendAll, ExtendOption, InPats, HasVar, VarsAround;
  }

  lemma EntersVarBody(f: Frame, path: Path, x: Name)
    requires f.VarBody?
    ensures Entered(f, path, Into(f, path), x)
  {
    var clause := VarClause(f.name, Var(f.name));
    VarsHas(Around(f.before, clause, f.after), x);
    HasVarAround(f.before, clause, f.after, x);
    BinderBelow(path, x);
  }

  lemma Enters(f: Frame, path: Path, x: Name)
    ensures Entered(f, path, Into(f, path), x)
  {
    hide Adds, Begun, Entered, InPats, InPat, Member;
    if f.VarBody? {
      EntersVarBody(f, path, x);
    } else if f.OpBody? {
      EntersOpBody(f, path, x);
    } else if f.InBlock? {
      EntersBlock(f, path, x);
    } else if f.LambdaBody? || f.EquationWhere? || f.EquationBody? {
      IntoParams(f.args, path, x);
      EnteredByFunction(f, path, Into(f, path), x);
    } else if Boundary(f) {
      IntoFunction(f.hole, path, x);
      EnteredByFunction(f, path, Into(f, path), x);
    } else {
      EntersValues(f, path, x);
    }
  }

  lemma EntersValues(f: Frame, path: Path, x: Name)
    requires !Boundary(f) && !f.VarBody? && !f.InBlock?
    ensures Entered(f, path, Into(f, path), x)
  {
    hide Adds, Entered, InPats, InPat, Member;
    if f.LetBody? {
      AddsBind(path, f.bind, x);
    } else if f.HandleBody? {
      AddsOption(path, f.tag, x);
    } else if f.UseBody? {
      AddsNames(path, f.names, x);
    } else if f.AltWhere? || f.AltBody? {
      AddsPat(path, f.pat, x);
    } else {
      AddsNone(path, x);
    }
    EnteredByAdding(f, path, Into(f, path), x);
  }

  // ---------------------------------------------------------------- the verdict is the rule's

  /** What the path of a place knows of a name. */
  ghost predicate Told(place: seq<Frame>, path: Path, x: Name)
  {
    && (Writable(path, x) <==> exists i: nat :: OwnedAt(place, i, x) && !HiddenFrom(place, i, x))
    && (OwnVar(path, x) <==> exists i: nat :: OwnedAt(place, i, x))
    && (SomeVar(path, x) <==> exists i: nat | i < |place| :: Declares(place[i], x))
    && (BinderAt(path, x).Some? <==> SomeVar(path, x) || HiddenFrom(place, 0, x))
    && ((exists i: nat :: EarlyAt(place, i, x)) ==> NotYet(path, x))
    && (NotYet(path, x) ==> SomeVar(path, x) || exists i: nat :: EarlyAt(place, i, x))
  }

  lemma OwnedNext(place: seq<Frame>, f: Frame, i: nat, x: Name)
    ensures OwnedAt(place + [f], i, x) <==>
            if i < |place| then OwnedAt(place, i, x) && !Boundary(f) else i == |place| && Declares(f, x)
  {
    var more := place + [f];
    if i < |place| {
      assert more[|place|] == f;
      if OwnedAt(more, i, x) {
        assert forall j: nat | i < j < |place| :: more[j] == place[j];
      }
    }
  }

  lemma HiddenNext(place: seq<Frame>, f: Frame, i: nat, x: Name)
    requires i <= |place|
    ensures HiddenFrom(place + [f], i, x) <==> HiddenFrom(place, i, x) || ValueHere(f, x)
  {
    var more := place + [f];
    assert more[|place|] == f;
    if HiddenFrom(place, i, x) {
      var j: nat :| i <= j < |place| && ValueHere(place[j], x);
      assert more[j] == place[j];
    }
  }

  lemma EarlyNext(place: seq<Frame>, f: Frame, i: nat, x: Name)
    ensures EarlyAt(place + [f], i, x) <==>
            if i < |place| then EarlyAt(place, i, x) && !f.VarBody? else i == |place| && Initialises(f, x)
  {
    var more := place + [f];
    if i < |place| {
      assert more[|place|] == f;
      if EarlyAt(more, i, x) {
        assert forall j: nat | i < j < |place| :: more[j] == place[j];
      }
    }
  }

  lemma SomeOwned(place: seq<Frame>, f: Frame, x: Name)
    ensures (exists i: nat :: OwnedAt(place + [f], i, x)) <==>
            Declares(f, x) || (!Boundary(f) && exists i: nat :: OwnedAt(place, i, x))
  {
    hide OwnedAt, Declares, Boundary;
    OnlyOpBodies(f, x);
    OwnedNext(place, f, |place|, x);
    if i: nat :| OwnedAt(place + [f], i, x) {
      OwnedNext(place, f, i, x);
    }
    if i: nat :| OwnedAt(place, i, x) && !Boundary(f) {
      OwnedInside(place, i, x);
      OwnedNext(place, f, i, x);
    }
  }

  lemma OwnedInside(place: seq<Frame>, i: nat, x: Name)
    requires OwnedAt(place, i, x)
    ensures i < |place|
  {
  }

  lemma SomeFree(place: seq<Frame>, f: Frame, x: Name)
    ensures (exists i: nat :: OwnedAt(place + [f], i, x) && !HiddenFrom(place + [f], i, x)) <==>
            !ValueHere(f, x) && (Declares(f, x) || (!Boundary(f) && exists i: nat ::
                                     OwnedAt(place, i, x) && !HiddenFrom(place, i, x)))
  {
    hide OwnedAt, HiddenFrom, Declares, Boundary, ValueHere;
    OnlyOpBodies(f, x);
    OwnedNext(place, f, |place|, x);
    HiddenNext(place, f, |place|, x);
    NothingHides(place, x);
    if i: nat :| OwnedAt(place + [f], i, x) && !HiddenFrom(place + [f], i, x) {
      OwnedInside(place + [f], i, x);
      OwnedNext(place, f, i, x);
      HiddenNext(place, f, i, x);
    }
    if i: nat :| OwnedAt(place, i, x) && !HiddenFrom(place, i, x) && !Boundary(f) && !ValueHere(f, x) {
      OwnedInside(place, i, x);
      OwnedNext(place, f, i, x);
      HiddenNext(place, f, i, x);
    }
  }

  lemma NothingHides(place: seq<Frame>, x: Name)
    ensures !HiddenFrom(place, |place|, x)
  {
  }

  lemma SomeDeclared(place: seq<Frame>, f: Frame, x: Name)
    ensures (exists i: nat | i < |place + [f]| :: Declares((place + [f])[i], x)) <==>
            Declares(f, x) || exists i: nat | i < |place| :: Declares(place[i], x)
  {
    hide Declares;
    var more := place + [f];
    assert more[|place|] == f;
    if i: nat :| i < |place| && Declares(place[i], x) {
      assert more[i] == place[i];
    }
  }

  lemma SomeEarly(place: seq<Frame>, f: Frame, x: Name)
    ensures (exists i: nat :: EarlyAt(place + [f], i, x)) <==>
            if f.VarBody? then Initialises(f, x) else exists i: nat :: EarlyAt(place, i, x)
  {
    hide EarlyAt, Initialises;
    EarlyNext(place, f, |place|, x);
    OnlyVarBodies(f, x);
    if i: nat :| EarlyAt(place + [f], i, x) {
      EarlyNext(place, f, i, x);
    }
    if i: nat :| EarlyAt(place, i, x) {
      EarlyInside(place, i, x);
      EarlyNext(place, f, i, x);
    }
  }

  lemma OnlyVarBodies(f: Frame, x: Name)
    ensures Initialises(f, x) ==> f.VarBody?
  {
  }

  lemma EarlyInside(place: seq<Frame>, i: nat, x: Name)
    requires EarlyAt(place, i, x)
    ensures i < |place|
  {
  }

  lemma ToldNext(place: seq<Frame>, f: Frame, path: Path, more: Path, x: Name)
    requires Told(place, path, x) && Entered(f, path, more, x)
    ensures Told(place + [f], more, x)
  {
    SomeOwned(place, f, x);
    SomeFree(place, f, x);
    SomeDeclared(place, f, x);
    SomeEarly(place, f, x);
    HiddenNext(place, f, 0, x);
    hide OwnedAt, HiddenFrom, EarlyAt, Declares, Initialises, Boundary, ValueHere, OwnVar, SomeVar, NotYet, Writable,
         BinderAt;
  }

  lemma ToldNothing(x: Name)
    ensures Told([], Nil, x)
  {
  }

  lemma {:induction false} PlaceTold(place: seq<Frame>, x: Name)
    ensures Told(place, PathOf(place), x)
    decreases |place|
  {
    hide Told, Entered, Into;
    if place == [] {
      ToldNothing(x);
    } else {
      var outer, f := place[..|place| - 1], place[|place| - 1];
      PlaceTold(outer, x);
      Enters(f, PathOf(outer), x);
      ToldNext(outer, f, PathOf(outer), PathOf(place), x);
      assert outer + [f] == place;
    }
  }

  /** The rule over paths is the rule over places. */
  lemma JudgedByPlace(place: seq<Frame>, x: Name)
    ensures Judged(PathOf(place), x) == VerdictAt(place, x)
  {
    PlaceTold(place, x);
    OwnIsBound(PathOf(place), x);
    SomeIsBound(PathOf(place), x);
    hide OwnedAt, HiddenFrom, EarlyAt, Declares, OwnVar, SomeVar, NotYet, Writable, BinderAt, PathOf;
  }

  // ---------------------------------------------------------------- counting writes

  /** The writes of a tree. */
  function Writes(n: Node): nat
    decreases n, 1
  {
    match n
    case Var(_) => 0
    case Assign(target, value) => Writes(value) + 1 + (if target.Some? then Writes(target.value) else 0)
    case Handler(cs) => WritesOfClauses(cs)
    case Block(ss) => WritesOfStmts(ss)
    case Lambda(_, body) => Writes(body)
    case LetIn(b, body) => Writes(b.body) + Writes(body)
    case HandleIn(h, _, body) => Writes(h) + Writes(body)
    case UseIn(_, body) => Writes(body)
    case Alt(_, ws, body) => WritesOfAll(ws) + Writes(body)
    case Equation(_, ws, body) => WritesOfAll(ws) + Writes(body)
    case Other(ns) => WritesOfAll(ns)
  }

  function WritesOfClauses(cs: List<Clause>): nat
    decreases cs, 0
  {
    if cs.Nil? then 0 else Writes(cs.head.body) + WritesOfClauses(cs.tail)
  }

  function WritesOfStmt(s: Stmt): nat
    decreases s, 0
  {
    match s
    case Handle(h, _) => Writes(h)
    case Use(_) => 0
    case Let(b) => Writes(b.body)
    case Do(n) => Writes(n)
  }

  function WritesOfStmts(ss: List<Stmt>): nat
    decreases ss, 0
  {
    if ss.Nil? then 0 else WritesOfStmt(ss.head) + WritesOfStmts(ss.tail)
  }

  function WritesOfAll(ns: List<Node>): nat
    decreases ns, 0
  {
    if ns.Nil? then 0 else Writes(ns.head) + WritesOfAll(ns.tail)
  }

  /** The log has one verdict for each write. */
  lemma {:induction false} OneVerdictEach(n: Node, path: Path)
    ensures |Judge(n, path)| == Writes(n)
    decreases n, 1
  {
    match n {
      case Var(_) =>
      case Assign(target, value) =>
        OneVerdictEach(value, path);
        if target.Some? {
          OneVerdictEach(target.value, path);
        }
      case Handler(cs) => OneEachClauses(cs, VarsOf(cs), path);
      case Block(ss) => OneEachStmts(ss, path);
      case Lambda(ps, body) => OneVerdictEach(body, ExtendAll(Cons(Function, path), ps));
      case LetIn(b, body) =>
        OneEachBind(b, path);
        OneVerdictEach(body, AfterBind(b, path));
      case HandleIn(h, tag, body) =>
        OneVerdictEach(h, path);
        OneVerdictEach(body, ExtendOption(path, tag));
      case UseIn(names, body) => OneVerdictEach(body, ExtendNames(path, names));
      case Alt(p, ws, body) =>
        OneEachAll(ws, Extend(path, p));
        OneVerdictEach(body, Extend(path, p));
      case Equation(ps, ws, body) =>
        OneEachAll(ws, ExtendAll(Cons(Function, path), ps));
        OneVerdictEach(body, ExtendAll(Cons(Function, path), ps));
      case Other(ns) => OneEachAll(ns, path);
    }
  }

  lemma {:induction false} OneEachBind(b: Bind, path: Path)
    ensures |JudgeBind(b, path)| == Writes(b.body)
    decreases b, 1
  {
    if b.FunctionBind? {
      OneVerdictEach(b.body, IntoBind(OfFunction(b.name, b.args), path));
    } else {
      OneVerdictEach(b.body, path);
    }
  }

  lemma {:induction false} OneEachClauses(cs: List<Clause>, vars: List<Name>, path: Path)
    ensures |JudgeClauses(cs, vars, path)| == WritesOfClauses(cs)
    decreases cs, 0
  {
    if cs.Cons? {
      var c := cs.head;
      if c.VarClause? {
        OneVerdictEach(c.body, Cons(Initialiser(vars), path));
      } else {
        OneVerdictEach(c.body, ExtendOption(ExtendAll(Cons(Body(vars), path), c.args), c.k));
      }
      OneEachClauses(cs.tail, vars, path);
    }
  }

  lemma {:induction false} OneEachStmt(s: Stmt, path: Path)
    ensures |JudgeStmt(s, path)| == WritesOfStmt(s)
    decreases s, 0
  {
    if s.Handle? {
      OneVerdictEach(s.handler, path);
    } else if s.Let? {
      OneEachBind(s.bind, path);
    } else if s.Do? {
      OneVerdictEach(s.node, path);
    }
  }

  lemma {:induction false} OneEachStmts(ss: List<Stmt>, path: Path)
    ensures |JudgeStmts(ss, path)| == WritesOfStmts(ss)
    decreases ss, 0
  {
    if ss.Cons? {
      OneEachStmt(ss.head, path);
      OneEachStmts(ss.tail, AfterStmt(ss.head, path));
    }
  }

  lemma {:induction false} OneEachAll(ns: List<Node>, path: Path)
    ensures |JudgeAll(ns, path)| == WritesOfAll(ns)
    decreases ns, 0
  {
    if ns.Cons? {
      OneVerdictEach(ns.head, path);
      OneEachAll(ns.tail, path);
    }
  }

  // ---------------------------------------------------------------- where in the log a place comes

  /** How many writes of the frame are walked before its hole. */
  function Before(f: Frame): nat
  {
    match f
    case ValueOf(_) => 0
    case TargetOf(value) => Writes(value) + 1
    case VarBody(before, _, _) => WritesOfClauses(before)
    case OpBody(before, _, _, _) => WritesOfClauses(before)
    case InBlock(earlier, _, _) => WritesOfStmts(earlier)
    case LambdaBody(_) => 0
    case LetBound(_, _) => 0
    case LetBody(b) => Writes(b.body)
    case HandlerOf(_, _) => 0
    case HandleBody(h, _) => Writes(h)
    case UseBody(_) => 0
    case AltWhere(_, left, _, _) => WritesOfAll(left)
    case AltBody(_, ws) => WritesOfAll(ws)
    case EquationWhere(_, left, _, _) => WritesOfAll(left)
    case EquationBody(_, ws) => WritesOfAll(ws)
    case Child(left, _) => WritesOfAll(left)
  }

  function Earlier(place: seq<Frame>): nat
    decreases |place|
  {
    if place == [] then 0 else Earlier(place[..|place| - 1]) + Before(place[|place| - 1])
  }

  lemma {:induction false} AllAround(left: List<Node>, n: Node, right: List<Node>, path: Path)
    ensures JudgeAll(Around(left, n, right), path) == JudgeAll(left, path) + Judge(n, path) + JudgeAll(right, path)
    decreases left
  {
    hide Judge;
    if left.Cons? {
      AllAround(left.tail, n, right, path);
    }
  }

  lemma {:induction false} ClausesAround(before: List<Clause>, c: Clause, after: List<Clause>, vars: List<Name>,
                                         path: Path)
    ensures JudgeClauses(Around(before, c, after), vars, path) ==
            JudgeClauses(before, vars, path) + JudgeClause(c, vars, path) + JudgeClauses(after, vars, path)
    decreases before
  {
    hide JudgeClause;
    if before.Cons? {
      ClausesAround(before.tail, c, after, vars, path);
    }
  }

  lemma {:induction false} StmtsAround(earlier: List<Stmt>, s: Stmt, later: List<Stmt>, path: Path)
    ensures var here := AfterStmts(earlier, path);
            JudgeStmts(Around(earlier, s, later), path) ==
            JudgeStmts(earlier, path) + JudgeStmt(s, here) + JudgeStmts(later, AfterStmt(s, here))
    decreases earlier
  {
    hide JudgeStmt, AfterStmt;
    if earlier.Cons? {
      StmtsAround(earlier.tail, s, later, AfterStmt(earlier.head, path));
    }
  }

  /** Which names a literal declares does not depend on what its clauses hold. */
  lemma {:induction false} VarsSame(before: List<Clause>, c: Clause, d: Clause, after: List<Clause>)
    requires c.VarClause? <==> d.VarClause?
    requires c.VarClause? ==> c.name == d.name
    ensures VarsAround(before, c, after) == VarsAround(before, d, after)
    decreases before
  {
    if before.Cons? {
      VarsSame(before.tail, c, d, after);
    }
  }

  /** The log of a frame is what comes before the hole, the log of what is in it, and what comes after. */
  lemma HoleInLog(f: Frame, n: Node, path: Path) returns (pre: seq<Verdict>, post: seq<Verdict>)
    requires f.TargetOf? ==> !n.Var?
    ensures Judge(Fill(f, n), path) == pre + Judge(n, Into(f, path)) + post && |pre| == Before(f)
  {
    if f.VarBody? || f.OpBody? {
      pre, post := HoleInLiteral(f, n, path);
    } else if f.InBlock? {
      pre, post := HoleInBlock(f, n, path);
    } else if f.AltWhere? || f.EquationWhere? || f.Child? {
      pre, post := HoleInMany(f, n, path);
    } else if f.TargetOf? || f.LetBody? || f.HandleBody? || f.AltBody? || f.EquationBody? {
      pre, post := HoleLast(f, n, path);
    } else {
      pre, post := HoleFirst(f, n, path);
    }
  }

  lemma HoleInLiteral(f: Frame, n: Node, path: Path) returns (pre: seq<Verdict>, post: seq<Verdict>)
    requires f.VarBody? || f.OpBody?
    ensures Judge(Fill(f, n), path) == pre + Judge(n, Into(f, path)) + post && |pre| == Before(f)
  {
    var c := if f.VarBody? then VarClause(f.name, n) else OpClause(f.args, f.k, n);
    var vars := VarsAround(f.before, c, f.after);
    VarsSame(f.before, c, if f.VarBody? then VarClause(f.name, Var(f.name)) else OpClause(f.args, f.k, Var("")),
             f.after);
    ClausesAround(f.before, c, f.after, vars, path);
    OneEachClauses(f.before, vars, path);
    pre, post := JudgeClauses(f.before, vars, path), JudgeClauses(f.after, vars, path);
    hide JudgeClauses, ExtendAll, ExtendOption, Around;
  }

  lemma HoleInBlock(f: Frame, n: Node, path: Path) returns (pre: seq<Verdict>, post: seq<Verdict>)
    requires f.InBlock?
    ensures Judge(Fill(f, n), path) == pre + Judge(n, Into(f, path)) + post && |pre| == Before(f)
  {
    var s, here := FillStmt(f.stmt, n), AfterStmts(f.earlier, path);
    StmtsAround(f.earlier, s, f.later, path);
    OneEachStmts(f.earlier, path);
    pre, post := JudgeStmts(f.earlier, path), JudgeStmts(f.later, AfterStmt(s, here));
    hide JudgeStmts, AfterStmts, AfterStmt, ExtendAll, Around;
  }

  lemma HoleInMany(f: Frame, n: Node, path: Path) returns (pre: seq<Verdict>, post: seq<Verdict>)
    requires f.AltWhere? || f.EquationWhere? || f.Child?
    ensures Judge(Fill(f, n), path) == pre + Judge(n, Into(f, path)) + post && |pre| == Before(f)
  {
    var inner := Into(f, path);
    AllAround(f.left, n, f.right, inner);
    OneEachAll(f.left, inner);
    pre := JudgeAll(f.left, inner);
    post := JudgeAll(f.right, inner) + if f.Child? then [] else Judge(f.body, inner);
    hide JudgeAll, Extend, ExtendAll, Around;
  }

  lemma HoleFirst(f: Frame, n: Node, path: Path) returns (pre: seq<Verdict>, post: seq<Verdict>)
    requires f.ValueOf? || f.LambdaBody? || f.LetBound? || f.HandlerOf? || f.UseBody?
    ensures Judge(Fill(f, n), path) == pre + Judge(n, Into(f, path)) + post && |pre| == Before(f)
  {
    pre, post := [], [];
    if f.ValueOf? {
      post := JudgeTarget(f.target, path);
    } else if f.LetBound? {
      post := Judge(f.body, AfterBind(FillBind(f.hole, n), path));
    } else if f.HandlerOf? {
      post := Judge(f.body, ExtendOption(path, f.tag));
    }
    hide JudgeAll, ExtendAll, Extend, ExtendNames, ExtendOption;
  }

  lemma HoleLast(f: Frame, n: Node, path: Path) returns (pre: seq<Verdict>, post: seq<Verdict>)
    requires f.TargetOf? || f.LetBody? || f.HandleBody? || f.AltBody? || f.EquationBody?
    requires f.TargetOf? ==> !n.Var?
    ensures Judge(Fill(f, n), path) == pre + Judge(n, Into(f, path)) + post && |pre| == Before(f)
  {
    post := [];
    if f.TargetOf? {
      pre := Judge(f.value, path) + [NotAName];
      OneVerdictEach(f.value, path);
    } else if f.LetBody? {
      pre := JudgeBind(f.bind, path);
      OneEachBind(f.bind, path);
    } else if f.HandleBody? {
      pre := Judge(f.handler, path);
      OneVerdictEach(f.handler, path);
    } else {
      pre := JudgeAll(f.wheres, Into(f, path));
      OneEachAll(f.wheres, Into(f, path));
    }
    hide JudgeAll, ExtendAll, Extend, ExtendNames, ExtendOption;
  }

  lemma {:induction false} PlaceInLog(place: seq<Frame>, n: Node) returns (pre: seq<Verdict>, post: seq<Verdict>)
    requires !n.Var?
    ensures Judge(Plug(place, n), Nil) == pre + Judge(n, PathOf(place)) + post && |pre| == Earlier(place)
    decreases |place|
  {
    hide Judge, Into, Before;
    if place == [] {
      pre, post := [], [];
    } else {
      var outer, f := place[..|place| - 1], place[|place| - 1];
      var pre0, post0 := PlaceInLog(outer, Fill(f, n));
      var pre1, post1 := HoleInLog(f, n, PathOf(outer));
      pre, post := pre0 + pre1, post1 + post0;
    }
  }

  /**
    The verdict on a write is the verdict of its place: `Fine` exactly when the innermost binder of the name is a
    `var` of the literal whose clause body is the nearest function boundary.
   */
  lemma WriteAt(place: seq<Frame>, target: Option<Node>, value: Node)
    ensures var log, at := Judge(Plug(place, Node.Assign(target, value)), Nil), Earlier(place) + Writes(value);
            && at < |log|
            && log[at] == if target.Some? && target.value.Var? then VerdictAt(place, target.value.name) else NotAName
  {
    var n := Node.Assign(target, value);
    var path := PathOf(place);
    var pre, post := PlaceInLog(place, n);
    OneVerdictEach(value, path);
    if target.Some? && target.value.Var? {
      JudgedByPlace(place, target.value.name);
    }
    hide PathOf, Plug, VerdictAt, Judged, Earlier, Writes;
    assert Judge(n, path) == Judge(value, path) + JudgeTarget(target, path);
    assert Judge(n, path)[Writes(value)] == JudgeTarget(target, path)[0];
  }

  // ---------------------------------------------------------------- every verdict is that of a place

  /** A write of a tree and its place. */
  datatype Site = Site(place: seq<Frame>, target: Option<Node>, value: Node)

  /** The tree around the write, and its turn in the log. */
  function Whole(s: Site): Node
  {
    Plug(s.place, Node.Assign(s.target, s.value))
  }

  function Turn(s: Site): nat
  {
    Earlier(s.place) + Writes(s.value)
  }

  function Under(f: Frame, s: Site): Site
  {
    s.(place := [f] + s.place)
  }

  lemma {:induction false} PlugUnder(f: Frame, place: seq<Frame>, n: Node)
    ensures Plug([f] + place, n) == Fill(f, Plug(place, n))
    ensures Earlier([f] + place) == Before(f) + Earlier(place)
    decreases |place|
  {
    hide Fill, Before;
    var more := [f] + place;
    if place == [] {
      assert more[..0] == [];
      assert Plug([], Fill(f, n)) == Fill(f, n);
      assert Earlier([]) == 0;
    } else {
      var outer, g := place[..|place| - 1], place[|place| - 1];
      assert more[..|more| - 1] == [f] + outer;
      PlugUnder(f, outer, Fill(g, n));
    }
  }

  lemma SiteUnder(f: Frame, s: Site)
    ensures Whole(Under(f, s)) == Fill(f, Whole(s)) && Turn(Under(f, s)) == Before(f) + Turn(s)
  {
    PlugUnder(f, s.place, Node.Assign(s.target, s.value));
    hide Plug, Earlier, Fill, Before;
  }

  /** The log's `i`th verdict is that of a write of the tree. */
  lemma {:induction false} EveryWrite(n: Node, i: nat) returns (s: Site)
    requires i < Writes(n)
    ensures Whole(s) == n && Turn(s) == i
    decreases n, 2
  {
    hide Whole, Turn;
    if n.Assign? {
      if i < Writes(n.value) {
        s := EveryWrite(n.value, i);
        s := Deeper(ValueOf(n.target), s);
      } else if i == Writes(n.value) {
        s := Site([], n.target, n.value);
        ThisWrite(n.target, n.value);
      } else {
        s := EveryWrite(n.target.value, i - Writes(n.value) - 1);
        s := Deeper(TargetOf(n.value), s);
      }
    } else if n.Handler? {
      var f, s0 := EveryInClauses(n.clauses, i);
      s := Deeper(f, s0);
    } else if n.Block? {
      var f, s0 := EveryInStmts(n.stmts, i);
      s := Deeper(f, s0);
    } else if n.Other? {
      var left, right, s0 := EveryInAll(n.children, i);
      s := Deeper(Child(left, right), s0);
    } else if n.Alt? || n.Equation? {
      s := EveryInWheres(n, i);
    } else {
      s := EveryInBody(n, i);
    }
  }

  lemma {:induction false} EveryInBody(n: Node, i: nat) returns (s: Site)
    requires i < Writes(n) && (n.Lambda? || n.LetIn? || n.HandleIn? || n.UseIn?)
    ensures Whole(s) == n && Turn(s) == i
    decreases n, 1
  {
    hide Whole, Turn;
    if n.LetIn? && i < Writes(n.bind.body) {
      s := EveryWrite(n.bind.body, i);
      s := Deeper(LetBound(HoleOf(n.bind), n.body), s);
    } else if n.HandleIn? && i < Writes(n.handler) {
      s := EveryWrite(n.handler, i);
      s := Deeper(HandlerOf(n.tag, n.body), s);
    } else {
      var f := if n.Lambda? then LambdaBody(n.params) else if n.LetIn? then LetBody(n.bind)
      else if n.HandleIn? then HandleBody(n.handler, n.tag) else UseBody(n.binds);
      s := EveryWrite(n.body, i - Before(f));
      s := Deeper(f, s);
    }
  }

  lemma {:induction false} EveryInWheres(n: Node, i: nat) returns (s: Site)
    requires i < Writes(n) && (n.Alt? || n.Equation?)
    ensures Whole(s) == n && Turn(s) == i
    decreases n, 1
  {
    hide Whole, Turn;
    var count := WritesOfAll(n.wheres);
    if i < count {
      var left, right, s0 := EveryInAll(n.wheres, i);
      s := Deeper(if n.Alt? then AltWhere(n.pat, left, right, n.body) else EquationWhere(n.args, left, right, n.body),
                  s0);
    } else {
      s := EveryWrite(n.body, i - count);
      s := Deeper(if n.Alt? then AltBody(n.pat, n.wheres) else EquationBody(n.args, n.wheres), s);
    }
  }

  lemma Deeper(f: Frame, s: Site) returns (r: Site)
    ensures Whole(r) == Fill(f, Whole(s)) && Turn(r) == Before(f) + Turn(s)
  {
    r := Under(f, s);
    SiteUnder(f, s);
  }

  lemma ThisWrite(target: Option<Node>, value: Node)
    ensures Whole(Site([], target, value)) == Node.Assign(target, value)
    ensures Turn(Site([], target, value)) == Writes(value)
  {
  }

  function HoleOf(b: Bind): (h: BindHole)
    ensures FillBind(h, b.body) == b
  {
    match b
    case FunctionBind(f, args, _) => OfFunction(f, args)
    case NameBind(x, _) => OfName(x)
    case PatternBind(p, _) => OfPattern(p)
  }

  lemma {:induction false} EveryInAll(ns: List<Node>, i: nat) returns (left: List<Node>, right: List<Node>, s: Site)
    requires i < WritesOfAll(ns)
    ensures Around(left, Whole(s), right) == ns && WritesOfAll(left) + Turn(s) == i
    decreases ns, 0
  {
    hide Whole, Turn;
    if i < Writes(ns.head) {
      s := EveryWrite(ns.head, i);
      left, right := Nil, ns.tail;
    } else {
      left, right, s := EveryInAll(ns.tail, i - Writes(ns.head));
      left := Cons(ns.head, left);
    }
  }

  lemma {:induction false} EveryInClauses(cs: List<Clause>, i: nat) returns (f: Frame, s: Site)
    requires i < WritesOfClauses(cs)
    ensures f.VarBody? || f.OpBody?
    ensures Fill(f, Whole(s)) == Handler(cs) && Before(f) + Turn(s) == i
    decreases cs, 0
  {
    hide Whole, Turn;
    var c := cs.head;
    if i < Writes(c.body) {
      s := EveryWrite(c.body, i);
      f := if c.VarClause? then VarBody(Nil, c.name, cs.tail) else OpBody(Nil, c.args, c.k, cs.tail);
    } else {
      f, s := EveryInClauses(cs.tail, i - Writes(c.body));
      f := if f.VarBody? then VarBody(Cons(c, f.before), f.name, f.after)
      else OpBody(Cons(c, f.before), f.args, f.k, f.after);
    }
  }

  lemma {:induction false} EveryInStmt(t: Stmt, i: nat) returns (h: StmtHole, s: Site)
    requires i < WritesOfStmt(t)
    ensures FillStmt(h, Whole(s)) == t && Turn(s) == i
    decreases t, 0
  {
    hide Whole, Turn;
    if t.Handle? {
      h := InHandle(t.tag);
      s := EveryWrite(t.handler, i);
    } else if t.Let? {
      h := InLet(HoleOf(t.bind));
      s := EveryWrite(t.bind.body, i);
    } else {
      h := InDo;
      s := EveryWrite(t.node, i);
    }
  }

  lemma {:induction false} EveryInStmts(ss: List<Stmt>, i: nat) returns (f: Frame, s: Site)
    requires i < WritesOfStmts(ss)
    ensures f.InBlock?
    ensures Fill(f, Whole(s)) == Block(ss) && Before(f) + Turn(s) == i
    decreases ss, 0
  {
    hide Whole, Turn;
    if i < WritesOfStmt(ss.head) {
      var h, s0 := EveryInStmt(ss.head, i);
      s := s0;
      f := InBlock(Nil, h, ss.tail);
    } else {
      f, s := EveryInStmts(ss.tail, i - WritesOfStmt(ss.head));
      f := f.(earlier := Cons(ss.head, f.earlier));
    }
  }

  /** The verdict of a write by its place. */
  ghost function SiteVerdict(s: Site): Verdict
  {
    if s.target.Some? && s.target.value.Var? then VerdictAt(s.place, s.target.value.name) else NotAName
  }

  /** Some write of the file has that turn. */
  ghost predicate HasSite(file: Node, i: nat)
  {
    exists s: Site :: Whole(s) == file && Turn(s) == i
  }

  /** The log of a file is the verdicts of its writes: one for each, and none besides. */
  lemma LogIsVerdicts(file: Node)
    ensures |Judge(file, Nil)| == Writes(file)
    ensures forall s: Site | Whole(s) == file :: Turn(s) < Writes(file) && Judge(file, Nil)[Turn(s)] == SiteVerdict(s)
    ensures forall i: nat | i < Writes(file) :: HasSite(file, i)
  {
    OneVerdictEach(file, Nil);
    hide Judge, Plug, Earlier, Writes, VerdictAt;
    forall s: Site | Whole(s) == file
      ensures Turn(s) < Writes(file) && Judge(file, Nil)[Turn(s)] == SiteVerdict(s)
    {
      WriteAt(s.place, s.target, s.value);
    }
    forall i: nat | i < Writes(file)
      ensures HasSite(file, i)
    {
      var s := EveryWrite(file, i);
    }
  }

  /**
    No write is `Fine` inside a function, or below a value of that name, without a clause body of its own in
    between.
   */
  lemma NothingFineBelow(place: seq<Frame>, f: Frame, inner: seq<Frame>, x: Name)
    requires ValueHere(f, x) || (Boundary(f) && !f.OpBody?)
    requires forall j: nat | j < |inner| :: !inner[j].OpBody?
    ensures !VerdictAt(place + [f] + inner, x).Fine?
  {
    hide ValueHere, Boundary;
    var whole := place + [f] + inner;
    assert whole[|place|] == f;
    assert forall j: nat | j < |inner| :: whole[|place| + 1 + j] == inner[j];
    forall i: nat | OwnedAt(whole, i, x)
      ensures HiddenFrom(whole, i, x)
    {
    }
  }
}
