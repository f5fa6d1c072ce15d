/**
  Write locality: `:=` is a handler's private write to its own activation frame
  (grammar/c/wok_resolve.c:690-746, 800-1185).

  The rule is stated over the path from the root to the write: the constructs that bind a name or form
  a function. The walk knows no path. It keeps a linked list of binders, the frame of the clause body it
  is directly in, and a counter that gives every handler literal its own frame; that the two agree rests
  on no two literals sharing a frame.
*/
module WriteLocality {
  import opened Tokens

  // ---------------------------------------------------------------- trees

  type Name = string

  datatype Pat = PVar(name: Name) | PAs(name: Name, pat: Pat) | PNode(children: List<Pat>)

  datatype Node =
    | Var(name: Name)
    | Assign(target: Option<Node>, value: Node)
    | Handler(clauses: List<Clause>)
    | Block(stmts: List<Stmt>)
    | Lambda(params: List<Pat>, body: Node)
    | LetIn(bind: Bind, body: Node)
    | HandleIn(handler: Node, tag: Option<Name>, body: Node)
    | UseIn(binds: List<Name>, body: Node)
    | Alt(pat: Pat, wheres: List<Node>, body: Node)
    | Equation(args: List<Pat>, wheres: List<Node>, body: Node)
    | Other(children: List<Node>)

  datatype Clause = VarClause(name: Name, body: Node) | OpClause(args: List<Pat>, k: Option<Name>, body: Node)

  datatype Bind =
    | FunctionBind(name: Name, args: List<Pat>, body: Node)
    | NameBind(name: Name, body: Node)
    | PatternBind(pat: Pat, body: Node)

  datatype Stmt =
    | Handle(handler: Node, tag: Option<Name>)
    | Use(binds: List<Name>)
    | Let(bind: Bind)
    | Do(node: Node)

  const MAX_BINDERS: nat := 64

  // ---------------------------------------------------------------- the rule, over paths

  /**
    One construct between the root and a write; a `Body` is that of a clause that is not a `var`, of a
    literal with these vars.
   */
  datatype Step =
    | Value(name: Name)
    | Function
    | Body(vars: List<Name>)
    | Initialiser(vars: List<Name>)

  /** Innermost first. */
  type Path = List<Step>

  predicate Member(x: Name, names: List<Name>)
  {
    names.Cons? && (names.head == x || Member(x, names.tail))
  }

  predicate Binds(s: Step, x: Name)
  {
    match s
    case Value(y) => x == y
    case Body(vars) => Member(x, vars)
    case Function => false
    case Initialiser(_) => false
  }

  predicate FormsFunction(s: Step)
  {
    s.Function? || s.Body?
  }

  function Len(path: Path): nat
  {
    if path.Nil? then 0 else 1 + Len(path.tail)
  }

  /** The innermost step that binds the name, by its height above the root. */
  function BinderAt(path: Path, x: Name): Option<nat>
  {
    if path.Nil? then None
    else if Binds(path.head, x) then Some(Len(path))
    else BinderAt(path.tail, x)
  }

  /** The nearest enclosing function-forming step. */
  function BoundaryAt(path: Path): Option<nat>
  {
    if path.Nil? then None
    else if FormsFunction(path.head) then Some(Len(path))
    else BoundaryAt(path.tail)
  }

  /** The innermost binder is the very clause step that is the nearest boundary. */
  predicate Writable(path: Path, x: Name)
  {
    BinderAt(path, x).Some? && BinderAt(path, x) == BoundaryAt(path)
  }

  /** The nearest boundary is a clause of a literal that declares the name. */
  predicate OwnVar(path: Path, x: Name)
  {
    path.Cons? && if FormsFunction(path.head) then Binds(path.head, x) else OwnVar(path.tail, x)
  }

  /** Some enclosing literal declares the name. */
  predicate SomeVar(path: Path, x: Name)
  {
    path.Cons? && ((path.head.Body? && Member(x, path.head.vars)) || SomeVar(path.tail, x))
  }

  /**
    The innermost `var` initialiser around is one of a literal that declares the name, or sees an outer `var`
    of it.
   */
  predicate NotYet(path: Path, x: Name)
  {
    path.Cons? && if path.head.Initialiser? then Member(x, path.head.vars) || SomeVar(path.tail, x)
      else NotYet(path.tail, x)
  }

  datatype Verdict = Fine | NotAName | Shadowed | OutsideFrame | NotAVar | BeforeFrame | Unbound

  function Judged(path: Path, x: Name): Verdict
  {
    if Writable(path, x) then Fine
    else if OwnVar(path, x) then Shadowed
    else if SomeVar(path, x) then OutsideFrame
    else if BinderAt(path, x).Some? then NotAVar
    else if NotYet(path, x) then BeforeFrame
    else Unbound
  }

  lemma {:induction false} BinderBelow(path: Path, x: Name)
    ensures BinderAt(path, x).Some? ==> BinderAt(path, x).value <= Len(path)
    ensures BoundaryAt(path).Some? ==> BoundaryAt(path).value <= Len(path)
  {
    if path.Cons? {
      BinderBelow(path.tail, x);
    }
  }

  /** Without the values that hide it. */
  function Unhidden(path: Path, x: Name): Path
  {
    if path.Nil? then Nil
    else if path.head == Value(x) then Unhidden(path.tail, x)
    else Cons(path.head, Unhidden(path.tail, x))
  }

  lemma {:induction false} WritableOwns(path: Path, x: Name)
    ensures Writable(path, x) ==> OwnVar(path, x)
    ensures Writable(Unhidden(path, x), x) <==> OwnVar(path, x)
  {
    if path.Cons? {
      BinderBelow(path.tail, x);
      BinderBelow(Unhidden(path.tail, x), x);
      WritableOwns(path.tail, x);
    }
  }

  /** What the shadow diagnostic promises: taking the shadow away repairs the write, and no other refusal. */
  lemma UnshadowingRepairs(path: Path, x: Name)
    ensures Judged(Unhidden(path, x), x).Fine? <==> Judged(path, x).Fine? || Judged(path, x).Shadowed?
  {
    WritableOwns(path, x);
  }

  /** An initialiser belongs to the enclosing body, not to the frame it initialises. */
  lemma InitialiserIsOutside(path: Path, vars: List<Name>, x: Name)
    ensures Judged(Cons(Initialiser(vars), path), x).Fine? <==> Judged(path, x).Fine?
    ensures Judged(Cons(Initialiser(vars), path), x).BeforeFrame? <==>
            BinderAt(path, x).None? && (Member(x, vars) || SomeVar(path, x))
  {
    BinderBelow(path, x);
    OwnIsBound(path, x);
    SomeIsBound(path, x);
  }

  lemma {:induction false} OwnIsBound(path: Path, x: Name)
    ensures OwnVar(path, x) ==> SomeVar(path, x)
  {
    if path.Cons? {
      OwnIsBound(path.tail, x);
    }
  }

  lemma {:induction false} SomeIsBound(path: Path, x: Name)
    ensures SomeVar(path, x) ==> BinderAt(path, x).Some?
  {
    if path.Cons? {
      SomeIsBound(path.tail, x);
    }
  }

  // ---------------------------------------------------------------- every write of a tree

  function Extend(path: Path, p: Pat): Path
    decreases p
  {
    match p
    case PVar(x) => Cons(Value(x), path)
    case PAs(x, q) => Extend(Cons(Value(x), path), q)
    case PNode(ps) => ExtendAll(path, ps)
  }

  function ExtendAll(path: Path, ps: List<Pat>): Path
    decreases ps
  {
    if ps.Nil? then path else ExtendAll(Extend(path, ps.head), ps.tail)
  }

  function ExtendNames(path: Path, names: List<Name>): Path
    decreases names
  {
    if names.Nil? then path else ExtendNames(Cons(Value(names.head), path), names.tail)
  }

  function ExtendOption(path: Path, name: Option<Name>): Path
  {
    if name.None? then path else Cons(Value(name.value), path)
  }

  function VarsOf(cs: List<Clause>): List<Name>
  {
    if cs.Nil? then Nil
    else if cs.head.VarClause? then Cons(cs.head.name, VarsOf(cs.tail))
    else VarsOf(cs.tail)
  }

  /** The verdict on each write, in the order of the walk. */
  function Judge(n: Node, path: Path): seq<Verdict>
    decreases n, 1
  {
    match n
    case Var(_) => []
    case Assign(target, value) => Judge(value, path) + JudgeTarget(target, path)
    case Handler(cs) => JudgeClauses(cs, VarsOf(cs), path)
    case Block(ss) => JudgeStmts(ss, path)
    case Lambda(ps, body) => Judge(body, ExtendAll(Cons(Function, path), ps))
    case LetIn(b, body) => JudgeBind(b, path) + Judge(body, AfterBind(b, path))
    case HandleIn(h, tag, body) => Judge(h, path) + Judge(body, ExtendOption(path, tag))
    case UseIn(names, body) => Judge(body, ExtendNames(path, names))
    case Alt(p, ws, body) => JudgeAll(ws, Extend(path, p)) + Judge(body, Extend(path, p))
    case Equation(ps, ws, body) =>
      var inner := ExtendAll(Cons(Function, path), ps);
      JudgeAll(ws, inner) + Judge(body, inner)
    case Other(ns) => JudgeAll(ns, path)
  }

  function JudgeTarget(target: Option<Node>, path: Path): seq<Verdict>
    decreases target, 2
  {
    if target.None? then [NotAName]
    else if target.value.Var? then [Judged(path, target.value.name)]
    else [NotAName] + Judge(target.value, path)
  }

  function JudgeClauses(cs: List<Clause>, vars: List<Name>, path: Path): seq<Verdict>
    decreases cs, 1
  {
    if cs.Nil? then [] else JudgeClause(cs.head, vars, path) + JudgeClauses(cs.tail, vars, path)
  }

  function JudgeClause(c: Clause, vars: List<Name>, path: Path): seq<Verdict>
    decreases c, 1
  {
    match c
    case VarClause(_, body) => Judge(body, Cons(Initialiser(vars), path))
    case OpClause(args, k, body) => Judge(body, ExtendOption(ExtendAll(Cons(Body(vars), path), args), k))
  }

  function JudgeStmts(ss: List<Stmt>, path: Path): seq<Verdict>
    decreases ss, 1
  {
    if ss.Nil? then []
    else JudgeStmt(ss.head, path) + JudgeStmts(ss.tail, AfterStmt(ss.head, path))
  }

  function JudgeStmt(s: Stmt, path: Path): seq<Verdict>
    decreases s, 1
  {
    match s
    case Handle(h, _) => Judge(h, path)
    case Use(_) => []
    case Let(b) => JudgeBind(b, path)
    case Do(n) => Judge(n, path)
  }

  function AfterStmt(s: Stmt, path: Path): Path
  {
    match s
    case Handle(_, tag) => ExtendOption(path, tag)
    case Use(names) => ExtendNames(path, names)
    case Let(b) => AfterBind(b, path)
    case Do(_) => path
  }

  function JudgeBind(b: Bind, path: Path): seq<Verdict>
    decreases b, 1
  {
    match b
    case FunctionBind(f, args, body) => Judge(body, ExtendAll(Cons(Value(f), Cons(Function, path)), args))
    case NameBind(_, body) => Judge(body, path)
    case PatternBind(_, body) => Judge(body, path)
  }

  function AfterBind(b: Bind, path: Path): Path
  {
    match b
    case FunctionBind(f, _, _) => Cons(Value(f), path)
    case NameBind(x, _) => Cons(Value(x), path)
    case PatternBind(p, _) => Extend(path, p)
  }

  function JudgeAll(ns: List<Node>, path: Path): seq<Verdict>
    decreases ns, 1
  {
    if ns.Nil? then [] else Judge(ns.head, path) + JudgeAll(ns.tail, path)
  }

  // ---------------------------------------------------------------- what the walk keeps instead of a path

  datatype Binder = Binder(name: Name, baton: bool, frame: nat)

  function Batons(vars: List<Name>, frame: nat, env: List<Binder>): List<Binder>
  {
    if vars.Nil? then env else Batons(vars.tail, frame, Cons(Binder(vars.head, true, frame), env))
  }

  /** The binders of a path, given the frame of each literal on it. */
  ghost function EnvOf(path: Path, ids: List<nat>): List<Binder>
  {
    match path
    case Nil => Nil
    case Cons(Value(x), more) => Cons(Binder(x, false, 0), EnvOf(more, ids))
    case Cons(Function, more) => EnvOf(more, ids)
    case Cons(Body(vars), more) => if ids.Nil? then Nil else Batons(vars, ids.head, EnvOf(more, ids.tail))
    case Cons(Initialiser(_), more) => if ids.Nil? then Nil else EnvOf(more, ids.tail)
  }

  ghost function FrameOf(path: Path, ids: List<nat>): nat
  {
    match path
    case Nil => 0
    case Cons(Value(_), more) => FrameOf(more, ids)
    case Cons(Function, more) => 0
    case Cons(Body(_), more) => if ids.Nil? then 0 else ids.head
    case Cons(Initialiser(_), more) => if ids.Nil? then 0 else FrameOf(more, ids.tail)
  }

  ghost function PendingOf(path: Path, ids: List<nat>): List<Binder>
  {
    match path
    case Nil => Nil
    case Cons(Value(_), more) => PendingOf(more, ids)
    case Cons(Function, more) => PendingOf(more, ids)
    case Cons(Body(_), more) => if ids.Nil? then Nil else PendingOf(more, ids.tail)
    case Cons(Initialiser(vars), more) => if ids.Nil? then Nil else Batons(vars, ids.head, EnvOf(more, ids.tail))
  }

  /** A frame for every literal on the path, none twice, none above `top`. */
  ghost predicate Framed(path: Path, ids: List<nat>, top: nat)
  {
    match path
    case Nil => ids.Nil?
    case Cons(Value(_), more) => Framed(more, ids, top)
    case Cons(Function, more) => Framed(more, ids, top)
    case Cons(_, more) => ids.Cons? && 0 < ids.head <= top && Framed(more, ids.tail, ids.head - 1)
  }

  ghost predicate Represents(env: List<Binder>, frame: nat, pending: List<Binder>, top: nat, path: Path, ids: List<nat>)
  {
    && env == EnvOf(path, ids) && frame == FrameOf(path, ids) && pending == PendingOf(path, ids)
    && Framed(path, ids, top)
  }

  lemma {:induction false} FramedHigher(path: Path, ids: List<nat>, top: nat, higher: nat)
    requires Framed(path, ids, top) && top <= higher
    ensures Framed(path, ids, higher)
  {
    if path.Cons? && (path.head.Value? || path.head.Function?) {
      FramedHigher(path.tail, ids, top, higher);
    }
  }

  // ---------------------------------------------------------------- looking a name up

  function Lookup(env: List<Binder>, x: Name): Option<Binder>
  {
    if env.Nil? then None else if env.head.name == x then Some(env.head) else Lookup(env.tail, x)
  }

  function LookupBaton(env: List<Binder>, x: Name): Option<Binder>
  {
    if env.Nil? then None
    else if env.head.baton && env.head.name == x then Some(env.head)
    else LookupBaton(env.tail, x)
  }

  lemma {:induction false} BatonsFound(vars: List<Name>, frame: nat, env: List<Binder>, x: Name)
    ensures Lookup(Batons(vars, frame, env), x) == if Member(x, vars) then Some(Binder(x, true, frame))
            else Lookup(env, x)
    ensures LookupBaton(Batons(vars, frame, env), x) ==
            if Member(x, vars) then Some(Binder(x, true, frame)) else LookupBaton(env, x)
  {
    if vars.Cons? {
      BatonsFound(vars.tail, frame, Cons(Binder(vars.head, true, frame), env), x);
    }
  }

  /** What the list knows of a name is what the path says of it. */
  lemma {:induction false} FoundOnPath(path: Path, ids: List<nat>, top: nat, x: Name)
    requires Framed(path, ids, top)
    ensures var found, baton := Lookup(EnvOf(path, ids), x), LookupBaton(EnvOf(path, ids), x);
            && (found.Some? <==> BinderAt(path, x).Some?)
            && (baton.Some? <==> SomeVar(path, x))
            && (baton.Some? ==> 0 < baton.value.frame <= top && baton.value.baton)
            && (found.Some? && found.value.baton ==> baton == found)
    ensures FrameOf(path, ids) <= top
  {
    if path.Cons? {
      var s := path.head;
      if s.Value? || s.Function? {
        FoundOnPath(path.tail, ids, top, x);
      } else {
        FoundOnPath(path.tail, ids.tail, ids.head - 1, x);
        if s.Body? {
          BatonsFound(s.vars, ids.head, EnvOf(path.tail, ids.tail), x);
        }
      }
    }
  }

  /** Frames tell literals apart: the right frame means the right literal. */
  lemma {:induction false} FrameTells(path: Path, ids: List<nat>, top: nat, x: Name)
    requires Framed(path, ids, top)
    ensures var found, baton, frame := Lookup(EnvOf(path, ids), x), LookupBaton(EnvOf(path, ids), x),
            FrameOf(path, ids);
            && (Writable(path, x) <==> frame != 0 && found.Some? && found.value.baton && found.value.frame == frame)
            && (OwnVar(path, x) <==> frame != 0 && baton.Some? && baton.value.frame == frame)
  {
    if path.Cons? {
      var s := path.head;
      BinderBelow(path.tail, x);
      if s.Value? || s.Function? {
        FrameTells(path.tail, ids, top, x);
      } else {
        FrameTells(path.tail, ids.tail, ids.head - 1, x);
        FoundOnPath(path.tail, ids.tail, ids.head - 1, x);
        if s.Body? {
          BatonsFound(s.vars, ids.head, EnvOf(path.tail, ids.tail), x);
        }
      }
    }
  }

  lemma {:induction false} PendingTells(path: Path, ids: List<nat>, top: nat, x: Name)
    requires Framed(path, ids, top)
    ensures LookupBaton(PendingOf(path, ids), x).Some? <==> NotYet(path, x)
  {
    if path.Cons? {
      var s := path.head;
      if s.Value? || s.Function? {
        PendingTells(path.tail, ids, top, x);
      } else {
        PendingTells(path.tail, ids.tail, ids.head - 1, x);
        if s.Initialiser? {
          FoundOnPath(path.tail, ids.tail, ids.head - 1, x);
          BatonsFound(s.vars, ids.head, EnvOf(path.tail, ids.tail), x);
        }
      }
    }
  }

  // ---------------------------------------------------------------- binding

  function Bound(env: List<Binder>, p: Pat): List<Binder>
    decreases p
  {
    match p
    case PVar(x) => Cons(Binder(x, false, 0), env)
    case PAs(x, q) => Bound(Cons(Binder(x, false, 0), env), q)
    case PNode(ps) => BoundAll(env, ps)
  }

  function BoundAll(env: List<Binder>, ps: List<Pat>): List<Binder>
    decreases ps
  {
    if ps.Nil? then env else BoundAll(Bound(env, ps.head), ps.tail)
  }

  /** Value binders change the list and nothing else. */
  lemma {:induction false} ExtendRepresents(env: List<Binder>, frame: nat, pending: List<Binder>, top: nat, path: Path,
                                            ids: List<nat>, p: Pat)
    requires Represents(env, frame, pending, top, path, ids)
    ensures Represents(Bound(env, p), frame, pending, top, Extend(path, p), ids)
    decreases p
  {
    hide Represents;
    match p
    case PVar(x) => EnterValue(env, frame, pending, top, path, ids, x);
    case PAs(x, q) =>
      EnterValue(env, frame, pending, top, path, ids, x);
      ExtendRepresents(Cons(Binder(x, false, 0), env), frame, pending, top, Cons(Value(x), path), ids, q);
    case PNode(ps) => ExtendAllRepresents(env, frame, pending, top, path, ids, ps);
  }

  lemma {:induction false} ExtendAllRepresents(env: List<Binder>, frame: nat, pending: List<Binder>, top: nat,
                                               path: Path,
                                               ids: List<nat>, ps: List<Pat>)
    requires Represents(env, frame, pending, top, path, ids)
    ensures Represents(BoundAll(env, ps), frame, pending, top, ExtendAll(path, ps), ids)
    decreases ps
  {
    hide Represents;
    if ps.Cons? {
      ExtendRepresents(env, frame, pending, top, path, ids, ps.head);
      ExtendAllRepresents(Bound(env, ps.head), frame, pending, top, Extend(path, ps.head), ids, ps.tail);
    }
  }

  lemma Still(env: List<Binder>, frame: nat, pending: List<Binder>, top: nat, path: Path, ids: List<nat>, higher: nat)
    requires Represents(env, frame, pending, top, path, ids) && top <= higher
    ensures Represents(env, frame, pending, higher, path, ids)
  {
    FramedHigher(path, ids, top, higher);
  }

  lemma EnterFunction(env: List<Binder>, frame: nat, pending: List<Binder>, top: nat, path: Path, ids: List<nat>)
    requires Represents(env, frame, pending, top, path, ids)
    ensures Represents(env, 0, pending, top, Cons(Function, path), ids)
  {
  }

  lemma EnterValue(env: List<Binder>, frame: nat, pending: List<Binder>, top: nat, path: Path, ids: List<nat>, x: Name)
    requires Represents(env, frame, pending, top, path, ids)
    ensures Represents(Cons(Binder(x, false, 0), env), frame, pending, top, Cons(Value(x), path), ids)
  {
  }

  lemma EnterBody(env: List<Binder>, frame: nat, pending: List<Binder>, top: nat, path: Path, ids: List<nat>,
                  vars: List<Name>)
    requires Represents(env, frame, pending, top, path, ids)
    ensures Represents(Batons(vars, top + 1, env), top + 1, pending, top + 1, Cons(Body(vars), path),
            Cons(top + 1, ids))
  {
  }

  lemma EnterInitialiser(env: List<Binder>, frame: nat, pending: List<Binder>, top: nat, path: Path, ids: List<nat>,
                         vars: List<Name>)
    requires Represents(env, frame, pending, top, path, ids)
    ensures Represents(env, frame, Batons(vars, top + 1, env), top + 1, Cons(Initialiser(vars), path),
            Cons(top + 1, ids))
  {
  }

  // ---------------------------------------------------------------- what overruns the walk's arrays

  function Names(p: Pat): nat
    decreases p
  {
    match p
    case PVar(_) => 1
    case PAs(_, q) => 1 + Names(q)
    case PNode(ps) => NamesAll(ps)
  }

  function NamesAll(ps: List<Pat>): nat
    decreases ps
  {
    if ps.Nil? then 0 else Names(ps.head) + NamesAll(ps.tail)
  }

  function CountVars(cs: List<Clause>): nat
  {
    if cs.Nil? then 0 else (if cs.head.VarClause? then 1 else 0) + CountVars(cs.tail)
  }

  function CountLets(ss: List<Stmt>): nat
  {
    if ss.Nil? then 0 else (if ss.head.Let? then 1 else 0) + CountLets(ss.tail)
  }

  /** Some construct binds more names than the walk keeps room for. */
  predicate Exceeds(n: Node)
    decreases n, 1
  {
    match n
    case Var(_) => false
    case Assign(target, value) => Exceeds(value) || (target.Some? && Exceeds(target.value))
    case Handler(cs) => CountVars(cs) > MAX_BINDERS || ExceedsClauses(cs)
    case Block(ss) => CountLets(ss) > MAX_BINDERS || ExceedsStmts(ss)
    case Lambda(ps, body) => NamesAll(ps) > MAX_BINDERS || Exceeds(body)
    case LetIn(b, body) => ExceedsBind(b) || Exceeds(body)
    case HandleIn(h, _, body) => Exceeds(h) || Exceeds(body)
    case UseIn(_, body) => Exceeds(body)
    case Alt(p, ws, body) => Names(p) > MAX_BINDERS || ExceedsAll(ws) || Exceeds(body)
    case Equation(ps, ws, body) => NamesAll(ps) > MAX_BINDERS || ExceedsAll(ws) || Exceeds(body)
    case Other(ns) => ExceedsAll(ns)
  }

  predicate ExceedsClause(c: Clause)
    decreases c, 0
  {
    (c.OpClause? && NamesAll(c.args) > MAX_BINDERS) || Exceeds(c.body)
  }

  predicate ExceedsClauses(cs: List<Clause>)
    decreases cs, 0
  {
    cs.Cons? && (ExceedsClause(cs.head) || ExceedsClauses(cs.tail))
  }

  predicate ExceedsBind(b: Bind)
    decreases b, 0
  {
    match b
    case FunctionBind(_, args, body) => NamesAll(args) > MAX_BINDERS || Exceeds(body)
    case NameBind(_, body) => Exceeds(body)
    case PatternBind(p, body) => Names(p) > MAX_BINDERS || Exceeds(body)
  }

  predicate ExceedsStmt(s: Stmt)
    decreases s, 0
  {
    match s
    case Handle(h, _) => Exceeds(h)
    case Use(_) => false
    case Let(b) => ExceedsBind(b)
    case Do(n) => Exceeds(n)
  }

  predicate ExceedsStmts(ss: List<Stmt>)
    decreases ss, 0
  {
    ss.Cons? && (ExceedsStmt(ss.head) || ExceedsStmts(ss.tail))
  }

  predicate ExceedsAll(ns: List<Node>)
    decreases ns, 0
  {
    ns.Cons? && (Exceeds(ns.head) || ExceedsAll(ns.tail))
  }

  // ---------------------------------------------------------------- the walk

  /** A count that stops one past the cap. */
  function Capped(n: nat): nat
  {
    if n > MAX_BINDERS then MAX_BINDERS + 1 else n
  }

  class ScopeWalk {
    var env: List<Binder>
    var pending: List<Binder>
    var frame: nat
    var nframe: nat
    var over: bool
    var log: seq<Verdict>
    ghost var issued: seq<nat>

    /** Every literal's frame so far, each larger than those before it. */
    ghost predicate Valid()
      reads this
    {
      && (forall i: nat, j: nat | i < j < |issued| :: issued[i] < issued[j])
      && (forall i: nat | i < |issued| :: 0 < issued[i] <= nframe)
    }

    ghost predicate At(path: Path, ids: List<nat>)
      reads this
    {
      Represents(env, frame, pending, nframe, path, ids)
    }

    constructor ()
      ensures Valid() && At(Nil, Nil) && !over && log == []
    {
      env, pending, frame, nframe, over, log, issued := Nil, Nil, 0, 0, false, [], [];
    }

    /** The scope is the caller's again, and the count of frames only rises. */
    twostate predicate Returned()
      reads this
    {
      && Valid() && env == old(env) && pending == old(pending) && frame == old(frame)
      && old(nframe) <= nframe
    }

    twostate predicate OnlyBinds()
      reads this
    {
      && pending == old(pending) && frame == old(frame) && nframe == old(nframe) && issued == old(issued)
      && log == old(log)
    }

    method BindPattern(p: Pat, n: nat) returns (n': nat)
      requires n == MAX_BINDERS + 1 ==> over
      requires n <= MAX_BINDERS + 1
      modifies this
      ensures OnlyBinds() && n' == Capped(n + Names(p)) && (over <==> old(over) || n + Names(p) > MAX_BINDERS)
      ensures !over ==> env == Bound(old(env), p)
      decreases p
    {
      n' := n;
      if n > MAX_BINDERS {
        return;
      }
      match p
      case PNode(ps) => n' := BindAll(ps, n);
      case PVar(x) => n' := BindName(x, n);
      case PAs(x, q) =>
        n' := BindName(x, n);
        if n' <= MAX_BINDERS {
          n' := BindPattern(q, n');
        }
    }

    method BindName(x: Name, n: nat) returns (n': nat)
      requires n <= MAX_BINDERS
      modifies this
      ensures OnlyBinds() && n' == n + 1 && (over <==> old(over) || n == MAX_BINDERS)
      ensures !over ==> env == Cons(Binder(x, false, 0), old(env))
    {
      n' := n + 1;
      if n == MAX_BINDERS {
        over := true;
      } else {
        env := Cons(Binder(x, false, 0), env);
      }
    }

    method BindAll(ps: List<Pat>, n: nat) returns (n': nat)
      requires n == MAX_BINDERS + 1 ==> over
      requires n <= MAX_BINDERS + 1
      modifies this
      ensures OnlyBinds() && n' == Capped(n + NamesAll(ps)) && (over <==> old(over) || n + NamesAll(ps) > MAX_BINDERS)
      ensures !over ==> env == BoundAll(old(env), ps)
      decreases ps
    {
      n' := n;
      if ps.Cons? {
        n' := BindPattern(ps.head, n);
        n' := BindAll(ps.tail, n');
      }
    }

    method BindOne(p: Pat, ghost path: Path, ghost ids: List<nat>)
      requires Valid() && (over || At(path, ids))
      modifies this
      ensures Valid() && OnlyBinds() && (over || At(Extend(path, p), ids))
      ensures over <==> old(over) || Names(p) > MAX_BINDERS
    {
      hide Represents;
      if !over {
        ExtendRepresents(env, frame, pending, nframe, path, ids, p);
      }
      var _ := BindPattern(p, 0);
    }

    method BindMany(ps: List<Pat>, ghost path: Path, ghost ids: List<nat>)
      requires Valid() && (over || At(path, ids))
      modifies this
      ensures Valid() && OnlyBinds() && (over || At(ExtendAll(path, ps), ids))
      ensures over <==> old(over) || NamesAll(ps) > MAX_BINDERS
    {
      hide Represents;
      if !over {
        ExtendAllRepresents(env, frame, pending, nframe, path, ids, ps);
      }
      var _ := BindAll(ps, 0);
    }

    /** A name that is no pattern: a label, a `use` name, a continuation, a `let` name. */
    method PushValue(x: Option<Name>, ghost path: Path, ghost ids: List<nat>)
      requires Valid() && (over || At(path, ids))
      modifies this
      ensures Valid() && OnlyBinds() && over == old(over) && (over || At(ExtendOption(path, x), ids))
    {
      hide Represents;
      if x.Some? {
        if !over {
          EnterValue(env, frame, pending, nframe, path, ids, x.value);
        }
        env := Cons(Binder(x.value, false, 0), env);
      }
    }

    method PushValues(names: List<Name>, ghost path: Path, ghost ids: List<nat>)
      requires Valid() && (over || At(path, ids))
      modifies this
      ensures Valid() && OnlyBinds() && over == old(over) && (over || At(ExtendNames(path, names), ids))
      decreases names
    {
      hide Represents;
      if names.Cons? {
        PushValue(Some(names.head), path, ids);
        PushValues(names.tail, Cons(Value(names.head), path), ids);
      }
    }

    method Find(x: Name) returns (found: Option<Binder>)
      ensures found == Lookup(env, x)
    {
      var s := env;
      while s.Cons?
        invariant Lookup(env, x) == Lookup(s, x)
        decreases s
      {
        if s.head.name == x {
          return Some(s.head);
        }
        s := s.tail;
      }
      found := None;
    }

    method FindBaton(from: List<Binder>, x: Name) returns (found: Option<Binder>)
      ensures found == LookupBaton(from, x)
    {
      var s := from;
      while s.Cons?
        invariant LookupBaton(from, x) == LookupBaton(s, x)
        decreases s
      {
        if s.head.baton && s.head.name == x {
          return Some(s.head);
        }
        s := s.tail;
      }
      found := None;
    }

    method CheckName(x: Name, ghost path: Path, ghost ids: List<nat>) returns (v: Verdict)
      ensures At(path, ids) ==> v == Judged(path, x)
    {
      OwnIsBound(path, x);
      SomeIsBound(path, x);
      if At(path, ids) {
        FoundOnPath(path, ids, nframe, x);
        FrameTells(path, ids, nframe, x);
        PendingTells(path, ids, nframe, x);
      }
      hide EnvOf, FrameOf, PendingOf, Framed, Lookup, LookupBaton, Writable, OwnVar, SomeVar, NotYet, BinderAt;
      var found := Find(x);
      if found.Some? && found.value.baton && found.value.frame == frame && frame != 0 {
        return Fine;
      }
      if found.Some? && !found.value.baton {
        var baton := FindBaton(env, x);
        if baton.Some? && baton.value.frame == frame && frame != 0 {
          return Shadowed;
        }
        return if baton.Some? then OutsideFrame else NotAVar;
      }
      if found.Some? {
        return OutsideFrame;
      }
      var late := FindBaton(pending, x);
      v := if late.Some? then BeforeFrame else Unbound;
    }

    /** The walk of any node: the caller's scope again, and the rule's verdict on every write below. */
    method Walk(n: Node, ghost path: Path, ghost ids: List<nat>)
      requires Valid() && (over || At(path, ids))
      modifies this
      ensures Returned() && (over || At(path, ids))
      ensures over <==> old(over) || Exceeds(n)
      ensures !over ==> log == old(log) + Judge(n, path)
      decreases n, 3
    {
      hide Represents;
      if n.Assign? {
        Walk(n.value, path, ids);
        CheckTarget(n.target, path, ids);
      } else if n.Handler? {
        WalkHandler(n.clauses, path, ids);
      } else if n.Lambda? || n.Equation? {
        WalkFunction(n, path, ids);
      } else if n.Other? {
        WalkAll(n.children, path, ids);
      } else if !n.Var? {
        WalkScoped(n, path, ids);
      }
    }

    /** A construct that binds for a part of itself: what it bound is dropped when it is left. */
    method WalkScoped(n: Node, ghost path: Path, ghost ids: List<nat>)
      requires Valid() && (over || At(path, ids)) && (n.Block? || n.LetIn? || n.HandleIn? || n.UseIn? || n.Alt?)
      modifies this
      ensures Returned() && (over || At(path, ids))
      ensures over <==> old(over) || Exceeds(n)
      ensures !over ==> log == old(log) + Judge(n, path)
      decreases n, 2
    {
      hide Represents;
      var env0 := env;
      ghost var top := nframe;
      match n {
        case Block(ss) => WalkStmts(ss, 0, path, ids);
        case LetIn(b, body) =>
          WalkBind(b, path, ids);
          Walk(body, AfterBind(b, path), ids);
        case HandleIn(h, tag, body) =>
          Walk(h, path, ids);
          PushValue(tag, path, ids);
          Walk(body, ExtendOption(path, tag), ids);
        case UseIn(names, body) =>
          PushValues(names, path, ids);
          Walk(body, ExtendNames(path, names), ids);
        case Alt(p, ws, body) =>
          BindOne(p, path, ids);
          WalkAll(ws, Extend(path, p), ids);
          Walk(body, Extend(path, p), ids);
        case Var(_) =>
        case Assign(_, _) =>
        case Handler(_) =>
        case Lambda(_, _) =>
        case Equation(_, _, _) =>
        case Other(_) =>
      }
      env := env0;
      if !over {
        Still(env, frame, pending, top, path, ids, nframe);
      }
    }

    method CheckTarget(target: Option<Node>, ghost path: Path, ghost ids: List<nat>)
      requires Valid() && (over || At(path, ids))
      modifies this
      ensures Returned() && (over || At(path, ids))
      ensures over <==> old(over) || (target.Some? && Exceeds(target.value))
      ensures !over ==> log == old(log) + JudgeTarget(target, path)
      decreases target, 0
    {
      hide Represents, Judged;
      if target.None? {
        log := log + [NotAName];
      } else if target.value.Var? {
        var v := CheckName(target.value.name, path, ids);
        log := log + [v];
      } else {
        log := log + [NotAName];
        Walk(target.value, path, ids);
      }
    }

    method WalkAll(ns: List<Node>, ghost path: Path, ghost ids: List<nat>)
      requires Valid() && (over || At(path, ids))
      modifies this
      ensures Returned() && (over || At(path, ids))
      ensures over <==> old(over) || ExceedsAll(ns)
      ensures !over ==> log == old(log) + JudgeAll(ns, path)
      decreases ns, 0
    {
      hide Represents;
      if ns.Cons? {
        Walk(ns.head, path, ids);
        WalkAll(ns.tail, path, ids);
      }
    }

    /** A lambda or an equation: a boundary, so no frame is the body's own. */
    method WalkFunction(n: Node, ghost path: Path, ghost ids: List<nat>)
      requires Valid() && (over || At(path, ids)) && (n.Lambda? || n.Equation?)
      modifies this
      ensures Returned() && (over || At(path, ids))
      ensures over <==> old(over) || Exceeds(n)
      ensures !over ==> log == old(log) + Judge(n, path)
      decreases n, 2
    {
      hide Represents;
      var env0, frame0 := env, frame;
      ghost var top := nframe;
      if !over {
        EnterFunction(env, frame, pending, top, path, ids);
      }
      frame := 0;
      if n.Lambda? {
        BindMany(n.params, Cons(Function, path), ids);
        Walk(n.body, ExtendAll(Cons(Function, path), n.params), ids);
      } else {
        BindMany(n.args, Cons(Function, path), ids);
        WalkAll(n.wheres, ExtendAll(Cons(Function, path), n.args), ids);
        Walk(n.body, ExtendAll(Cons(Function, path), n.args), ids);
      }
      env, frame := env0, frame0;
      if !over {
        Still(env, frame, pending, top, path, ids, nframe);
      }
    }

    /** A `let`: with parameters a function, and so a boundary; without, its right side reads the outside. */
    method WalkBind(b: Bind, ghost path: Path, ghost ids: List<nat>)
      requires Valid() && (over || At(path, ids))
      modifies this
      ensures Valid() && pending == old(pending) && frame == old(frame) && old(nframe) <= nframe
      ensures over || At(AfterBind(b, path), ids)
      ensures over <==> old(over) || ExceedsBind(b)
      ensures !over ==> log == old(log) + JudgeBind(b, path)
      decreases b, 1
    {
      hide Represents;
      if b.FunctionBind? {
        WalkLocalFunction(b, path, ids);
        PushValue(Some(b.name), path, ids);
      } else {
        Walk(b.body, path, ids);
        if b.NameBind? {
          PushValue(Some(b.name), path, ids);
        } else {
          BindOne(b.pat, path, ids);
        }
      }
    }

    method WalkLocalFunction(b: Bind, ghost path: Path, ghost ids: List<nat>)
      requires Valid() && (over || At(path, ids)) && b.FunctionBind?
      modifies this
      ensures Returned() && (over || At(path, ids))
      ensures over <==> old(over) || ExceedsBind(b)
      ensures !over ==> log == old(log) + JudgeBind(b, path)
      decreases b, 0
    {
      hide Represents;
      var env0, frame0 := env, frame;
      ghost var top := nframe;
      if !over {
        EnterFunction(env, frame, pending, top, path, ids);
      }
      frame := 0;
      PushValue(Some(b.name), Cons(Function, path), ids);
      ghost var self := Cons(Value(b.name), Cons(Function, path));
      BindMany(b.args, self, ids);
      Walk(b.body, ExtendAll(self, b.args), ids);
      env, frame := env0, frame0;
      if !over {
        Still(env, frame, pending, top, path, ids, nframe);
      }
    }

    /** A block scopes sequentially and is no boundary. */
    method WalkStmts(ss: List<Stmt>, used: nat, ghost path: Path, ghost ids: List<nat>)
      requires Valid() && (over || At(path, ids)) && used <= MAX_BINDERS + 1 && (used == MAX_BINDERS + 1 ==> over)
      modifies this
      ensures Valid() && pending == old(pending) && frame == old(frame) && old(nframe) <= nframe
      ensures over <==> old(over) || used + CountLets(ss) > MAX_BINDERS || ExceedsStmts(ss)
      ensures !over ==> log == old(log) + JudgeStmts(ss, path)
      decreases ss, 0
    {
      hide Represents;
      if ss.Cons? {
        var used' := WalkStmt(ss.head, used, path, ids);
        WalkStmts(ss.tail, used', AfterStmt(ss.head, path), ids);
      }
    }

    method WalkStmt(s: Stmt, used: nat, ghost path: Path, ghost ids: List<nat>) returns (used': nat)
      requires Valid() && (over || At(path, ids)) && used <= MAX_BINDERS + 1 && (used == MAX_BINDERS + 1 ==> over)
      modifies this
      ensures Valid() && pending == old(pending) && frame == old(frame) && old(nframe) <= nframe
      ensures used' == Capped(used + if s.Let? then 1 else 0)
      ensures over <==> old(over) || used' > MAX_BINDERS || ExceedsStmt(s)
      ensures over || At(AfterStmt(s, path), ids)
      ensures !over ==> log == old(log) + JudgeStmt(s, path)
      decreases s, 0
    {
      hide Represents;
      used' := used;
      match s
      case Handle(h, tag) =>
        Walk(h, path, ids);
        PushValue(tag, path, ids);
      case Use(names) => PushValues(names, path, ids);
      case Do(n) => Walk(n, path, ids);
      case Let(b) =>
        if used < MAX_BINDERS {
          used' := used + 1;
          WalkBind(b, path, ids);
        } else {
          over, used' := true, MAX_BINDERS + 1;
          Walk(b.body, path, ids);
        }
    }

    /** A literal: a frame of its own, its `var`s in scope in the bodies of all its other clauses. */
    method WalkHandler(cs: List<Clause>, ghost path: Path, ghost ids: List<nat>)
      requires Valid() && (over || At(path, ids))
      modifies this
      ensures Returned() && (over || At(path, ids))
      ensures over <==> old(over) || CountVars(cs) > MAX_BINDERS || ExceedsClauses(cs)
      ensures !over ==> log == old(log) + JudgeClauses(cs, VarsOf(cs), path)
      decreases cs, 2
    {
      hide Represents;
      ghost var top := nframe;
      nframe := nframe + 1;
      issued := issued + [nframe];
      var id := nframe;
      var inner := Declare(cs, id);
      WalkClauses(cs, VarsOf(cs), id, inner, path, ids);
      if !over {
        Still(env, frame, pending, top, path, ids, nframe);
      }
    }

    method Declare(cs: List<Clause>, id: nat) returns (inner: List<Binder>)
      modifies this`over
      ensures over <==> old(over) || CountVars(cs) > MAX_BINDERS
      ensures !over ==> inner == Batons(VarsOf(cs), id, env)
    {
      inner := env;
      var rest, n: nat := cs, 0;
      while rest.Cons?
        invariant n <= MAX_BINDERS && over == old(over) && n + CountVars(rest) == CountVars(cs)
        invariant !over ==> Batons(VarsOf(rest), id, inner) == Batons(VarsOf(cs), id, env)
        decreases rest
      {
        if rest.head.VarClause? {
          if n == MAX_BINDERS {
            over := true;
            break;
          }
          n := n + 1;
          inner := Cons(Binder(rest.head.name, true, id), inner);
        }
        rest := rest.tail;
      }
    }

    method WalkClauses(cs: List<Clause>, ghost vars: List<Name>, id: nat, inner: List<Binder>, ghost path: Path,
                       ghost ids: List<nat>)
      requires Valid() && 0 < id <= nframe
      requires over || (Represents(env, frame, pending, id - 1, path, ids) && inner == Batons(vars, id, env))
      modifies this
      ensures Returned()
      ensures over <==> old(over) || ExceedsClauses(cs)
      ensures !over ==> log == old(log) + JudgeClauses(cs, vars, path)
      decreases cs, 1
    {
      hide Represents;
      if cs.Cons? {
        WalkClause(cs.head, vars, id, inner, path, ids);
        WalkClauses(cs.tail, vars, id, inner, path, ids);
      }
    }

    /** An initialiser is walked where the literal stands, the literal's `var`s known but not in scope. */
    method WalkClause(c: Clause, ghost vars: List<Name>, id: nat, inner: List<Binder>, ghost path: Path,
                      ghost ids: List<nat>)
      requires Valid() && 0 < id <= nframe
      requires over || (Represents(env, frame, pending, id - 1, path, ids) && inner == Batons(vars, id, env))
      modifies this
      ensures Returned()
      ensures over <==> old(over) || ExceedsClause(c)
      ensures !over ==> log == old(log) + JudgeClause(c, vars, path)
      decreases c, 1
    {
      hide Represents;
      var env0, frame0, pending0 := env, frame, pending;
      if c.VarClause? {
        ghost var within := Cons(Initialiser(vars), path);
        if !over {
          EnterInitialiser(env, frame, pending, id - 1, path, ids, vars);
          Still(env, frame, inner, id, within, Cons(id, ids), nframe);
        }
        pending := inner;
        Walk(c.body, within, Cons(id, ids));
      } else {
        ghost var within := Cons(Body(vars), path);
        if !over {
          EnterBody(env, frame, pending, id - 1, path, ids, vars);
          Still(inner, id, pending, id, within, Cons(id, ids), nframe);
        }
        env, frame := inner, id;
        BindMany(c.args, within, Cons(id, ids));
        PushValue(c.k, ExtendAll(within, c.args), Cons(id, ids));
        Walk(c.body, ExtendOption(ExtendAll(within, c.args), c.k), Cons(id, ids));
      }
      env, frame, pending := env0, frame0, pending0;
    }

    /** The whole file: every write is judged by the rule, unless some construct overruns a cap, which is reported. */
    method WalkFile(file: Node)
      requires Valid() && At(Nil, Nil) && !over && log == []
      modifies this
      ensures Valid() && (over <==> Exceeds(file)) && (!over ==> log == Judge(file, Nil))
    {
      hide Represents, Judge, Exceeds;
      Walk(file, Nil, Nil);
    }
  }
}
