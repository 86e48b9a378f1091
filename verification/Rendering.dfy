/** The emitted code renders the template: whatever the data, flattening the value of the
    code gives the nodes that the template means. */
module Rendering {
  import opened Template
  import opened Codegen

  // ------------------------------------------------------------ flattening

  lemma JoinAssociates(a: seq<VNode>, b: seq<VNode>, c: seq<VNode>)
    ensures a + (b + c) == (a + b) + c
  {
  }

  lemma {:induction false} FlatAllConcat(xs: seq<Val>, ys: seq<Val>)
    ensures FlatAll(xs + ys) == FlatAll(xs) + FlatAll(ys)
  {
    if xs == [] {
      assert xs + ys == ys;
    } else {
      FlatAllConcat(xs[1..], ys);
      hide Flat;
      assert (xs + ys)[0] == xs[0] && (xs + ys)[1..] == xs[1..] + ys;
      JoinAssociates(Flat(xs[0]), FlatAll(xs[1..]), FlatAll(ys));
    }
  }

  lemma {:induction false} FlatLift(n: VNode)
    ensures Flat(Lift(n)) == [n] && IsNode(Lift(n))
    decreases n, 1
  {
    if n.VElement? {
      FlatLiftAll(n.kids);
    }
  }

  lemma {:induction false} FlatLiftAll(ns: seq<VNode>)
    ensures FlatAll(LiftAll(ns)) == ns
    decreases ns, 0
  {
    if ns != [] {
      FlatLift(ns[0]);
      FlatLiftAll(ns[1..]);
      assert LiftAll(ns)[1..] == LiftAll(ns[1..]);
    }
  }

  lemma {:induction false} FullyFlatKeepsNodes(vs: seq<Val>)
    ensures FlatAll(FullyFlat(vs)) == FlatAll(vs)
  {
    if vs != [] {
      FullyFlatKeepsNodes(vs[1..]);
      var first := match vs[0] case Undefined => [] case Arr(items) => FullyFlat(items) case _ => [vs[0]];
      FlatAllConcat(first, FullyFlat(vs[1..]));
      if vs[0].Arr? {
        FullyFlatKeepsNodes(vs[0].items);
      }
    }
  }

  lemma {:induction false} OneLevelFlatKeepsNodes(vs: seq<Val>)
    ensures FlatAll(OneLevelFlat(vs)) == FlatAll(vs)
  {
    if vs != [] {
      OneLevelFlatKeepsNodes(vs[1..]);
      FlatAllConcat(if vs[0].Arr? then vs[0].items else [vs[0]], OneLevelFlat(vs[1..]));
    }
  }

  /** Neither kind of normalization loses, adds or moves a node. */
  lemma NormalizeKeepsNodes(norm: nat, v: Val)
    ensures FlatAll(Normalize(norm, v)) == Flat(v)
  {
    if v.Arr? {
      FullyFlatKeepsNodes(v.items);
      OneLevelFlatKeepsNodes(v.items);
    }
  }

  lemma CreatedFlat(sem: Semantics, tag: string, data: Option<seq<(string, string)>>, kids: seq<Val>)
    ensures Flat(Created(sem, tag, data, kids)) == Made(sem, tag, data, FlatAll(kids))
  {
    if !sem.isReservedTag(tag) {
      match sem.component(tag, data, FlatAll(kids))
      case One(node) => FlatLift(node);
      case Many(nodes) => FlatLiftAll(nodes);
    }
  }

  // ------------------------------------------------------------ static code

  /** Code that mentions no data and no other static tree. */
  predicate Closed(c: Code) {
    match c
    case Create(_, _, attrs, children, _) =>
      (forall t | t in attrs :: t.value.Literal?) && (children.Some? ==> Closed(children.value))
    case List(items) => forall c | c in items :: Closed(c)
    case TextLit(_) => true
    case CommentLit(_) => true
    case Empty => true
    case Void => true
    case _ => false
  }

  lemma LiteralData(sem: Semantics, plain: bool, attrs: seq<Attr>, env: Env, env': Env)
    requires forall t | t in attrs :: t.value.Literal?
    ensures DataOf(sem, plain, attrs, env) == DataOf(sem, plain, attrs, env')
  {
    if !plain {
      var d, d' := DataOf(sem, plain, attrs, env).value, DataOf(sem, plain, attrs, env').value;
      assert forall i | 0 <= i < |attrs| :: attrs[i] in attrs && d[i] == d'[i];
      assert d == d';
    }
  }

  /** Closed code has one value, whatever data it is evaluated on. */
  lemma {:induction false} ClosedValue(sem: Semantics, c: Code, env: Env, root: Env, fns: seq<Code>,
                                       env': Env, root': Env, fns': seq<Code>)
    requires Closed(c)
    ensures Eval(sem, c, env, root, fns) == Eval(sem, c, env', root', fns')
    decreases c
  {
    match c
    case Create(tag, plain, attrs, children, norm) =>
      if children.Some? {
        ClosedValue(sem, children.value, env, root, fns, env', root', fns');
      }
      LiteralData(sem, plain, attrs, env, env');
    case List(items) =>
      forall i | 0 <= i < |items|
        ensures Eval(sem, items[i], env, root, fns) == Eval(sem, items[i], env', root', fns')
      {
        ClosedValue(sem, items[i], env, root, fns, env', root', fns');
      }
      assert EvalAll(sem, items, env, root, fns) == EvalAll(sem, items, env', root', fns');
    case _ =>
  }

  /** The optimizer marks only trees that do not depend on data. */
  lemma {:induction false} StaticIsFixed(a: Ast, p: Place)
    requires Parsed(a) && IsStatic(a, p)
    ensures Fixed(a)
    decreases a
  {
    if a.Element? && !a.pre {
      forall c | c in a.children ensures Fixed(c) {
        StaticIsFixed(c, Inside(a, p));
      }
    }
  }

  /** Nothing in the tree makes the optimizer doubt it: a literal element, or one without
      bindings and unknown keys whose tag is reserved and that is no child of a looping template;
      and so for everything inside that the optimizer looks at. */
  predicate Undoubted(a: Ast, p: Place)
    decreases a
  {
    a.Element? ==>
      (a.pre || (!a.hasBindings && !a.extraKeys && p.isReservedTag(a.tag) && !p.templateFor)) &&
      (p.isReservedTag(a.tag) || a.tag == "slot" ==> forall c | c in a.children :: Undoubted(c, Inside(a, p)))
  }

  /** Exactly the trees that depend on no data and are undoubted are static. */
  lemma {:induction false} StaticExactly(a: Ast, p: Place)
    requires Parsed(a)
    ensures IsStatic(a, p) <==> Fixed(a) && Undoubted(a, p)
    decreases a
  {
    if a.Element? {
      forall c | c in a.children ensures IsStatic(c, Inside(a, p)) <==> Fixed(c) && Undoubted(c, Inside(a, p)) {
        StaticExactly(c, Inside(a, p));
      }
      if IsStatic(a, p) {
        StaticIsFixed(a, p);
      }
      if Fixed(a) && Undoubted(a, p) {
        UndoubtedIsStatic(a, p);
      }
    }
  }

  lemma UndoubtedIsStatic(a: Ast, p: Place)
    requires Parsed(a) && a.Element? && Fixed(a) && Undoubted(a, p)
    requires forall c | c in a.children :: IsStatic(c, Inside(a, p)) <==> Fixed(c) && Undoubted(c, Inside(a, p))
    ensures IsStatic(a, p)
  {
    assert a.otherwise.NoMore?;
  }

  /** Hoisted is exactly an outermost static element that has more than one text inside. */
  lemma RootExactly(a: Ast, p: Place)
    requires Parsed(a) && a.Element?
    ensures IsStaticRoot(a, p) <==>
      p.marked && !p.belowRoot && Fixed(a) && Undoubted(a, p) && a.children != [] && !(|a.children| == 1 && a.children[0].Text?)
  {
    StaticExactly(a, p);
  }

  /** The generator emits a reference to a static tree exactly for static roots, and its
      function is the code of the element. */
  lemma RootsAreHoisted(a: Ast, p: Place, fns: seq<Code>)
    requires Parsed(a) && a.Element?
    ensures var (code, fns1) := GenElement(a, NoFlags, p, fns);
            (code.Static? <==> IsStaticRoot(a, p)) &&
            (code.Static? ==> code.index < |fns1| && code.inFor == p.inFor &&
                              fns1[code.index] == GenElement(a, NoFlags.(hoisted := true), p, fns).0)
  {
    if !IsStaticRoot(a, p) && a.forLoop.None? && a.ifExp.None? && a.tag == "template" {
      var children := GenChildren(a.children, false, Below(a, p), fns).0;
      assert GenElement(a, NoFlags, p, fns) == GenTemplate(a, p, fns);
      assert GenTemplate(a, p, fns).0 == if children.Some? then children.value else Void;
      if Shortcut(a.children) {
        LoopIsNotHoisted(a.children[0], Below(a, p), fns);
        assert GenChildren(a.children, false, Below(a, p), fns).0 == Some(GenNode(a.children[0], Below(a, p), fns).0);
      } else if a.children != [] {
        assert GenChildren(a.children, false, Below(a, p), fns).0 == Some(List(GenAll(a.children, Below(a, p), fns).0));
      }
    }
  }

  /** The code of an element that is neither hoisted nor looping nor conditional nor a template:
      its own tag and data, and its children with the normalization they need. */
  lemma ElementCode(a: Ast, p: Place, fns: seq<Code>)
    requires a.Element? && !IsStaticRoot(a, p) && a.forLoop.None? && a.ifExp.None? && a.tag != "template"
    ensures var code := GenElement(a, NoFlags, p, fns).0;
            code.Create? && code.tag == a.tag && code.plain == a.plain && code.attrs == a.attrs &&
            (code.children.None? <==> a.children == []) &&
            code.norm == if a.children == [] || Shortcut(a.children) then 0 else NormalizationType(a.children, Below(a, p))
  {
    var (children, norm, fns1) := GenChildren(a.children, true, Below(a, p), fns);
    assert GenElement(a, NoFlags, p, fns) == (Create(a.tag, a.plain, a.attrs, children, norm), fns1);
  }

  lemma LoopIsNotHoisted(a: Ast, p: Place, fns: seq<Code>)
    requires Parsed(a) && a.Element? && a.forLoop.Some?
    ensures GenNode(a, p, fns).0.Loop?
  {
    if IsStatic(a, p) {
      StaticIsFixed(a, p);
    }
    assert GenNode(a, p, fns) == GenElement(a, NoFlags, p, fns);
  }

  /** Inside a hoisted tree nothing else is hoisted, and the code of such a tree is closed. */
  lemma {:induction false} FixedGivesClosed(a: Ast, f: Flags, p: Place, fns: seq<Code>)
    requires a.Element? && Fixed(a) && (f.hoisted || !IsStaticRoot(a, p)) && Below(a, p).belowRoot
    ensures Closed(GenElement(a, f, p, fns).0) && GenElement(a, f, p, fns).1 == fns
    decreases a, 2
  {
    FixedChildrenGiveClosed(a.children, a.tag != "template", Below(a, p), fns);
    if a.tag == "template" {
      assert GenElement(a, f, p, fns) == GenTemplate(a, p, fns);
    } else {
      var (children, norm, fns1) := GenChildren(a.children, true, Below(a, p), fns);
      assert GenElement(a, f, p, fns) == (Create(a.tag, a.plain, a.attrs, children, norm), fns1);
    }
  }

  lemma {:induction false} FixedChildrenGiveClosed(cs: seq<Ast>, checkSkip: bool, p: Place, fns: seq<Code>)
    requires (forall c | c in cs :: Fixed(c)) && p.belowRoot
    ensures GenChildren(cs, checkSkip, p, fns).2 == fns
    ensures GenChildren(cs, checkSkip, p, fns).0.Some? ==> Closed(GenChildren(cs, checkSkip, p, fns).0.value)
    decreases cs, 1
  {
    if cs != [] {
      assert Fixed(cs[0]);
      FixedAllGiveClosed(cs, p, fns);
    }
  }

  lemma {:induction false} FixedAllGiveClosed(cs: seq<Ast>, p: Place, fns: seq<Code>)
    requires (forall c | c in cs :: Fixed(c)) && p.belowRoot
    ensures GenAll(cs, p, fns).1 == fns
    ensures forall c | c in GenAll(cs, p, fns).0 :: Closed(c)
    decreases cs, 0
  {
    if cs != [] {
      assert Fixed(cs[0]);
      if cs[0].Element? {
        FixedGivesClosed(cs[0], NoFlags, p, fns);
      }
      FixedAllGiveClosed(cs[1..], p, fns);
    }
  }

  // ------------------------------------------------------------ the generator

  /** What is left to render of an element once some of its flags are set. */
  function InterpRest(sem: Semantics, a: Ast, f: Flags, env: Env): seq<VNode>
    requires a.Element?
  {
    if a.forLoop.Some? && !f.loop then Interp(sem, a, env)
    else if !f.cond then InterpChoice(sem, a, env)
    else InterpElement(sem, a, env)
  }

  lemma {:induction false} ElementRenders(
    sem: Semantics, a: Ast, f: Flags, p: Place, fns: seq<Code>, final: seq<Code>, env: Env, root: Env)
    requires a.Element? && Parsed(a) && (f.cond ==> f.loop || a.forLoop.None?)
    requires GenElement(a, f, p, fns).1 <= final
    ensures Flat(Eval(sem, GenElement(a, f, p, fns).0, env, root, final)) == InterpRest(sem, a, f, env)
    decreases a, 2, Unset(f), 0
  {
    if IsStaticRoot(a, p) && !f.hoisted {
      HoistedRenders(sem, a, f, p, fns, final, env, root);
    } else if a.forLoop.Some? && !f.loop {
      var (code, fns1) := GenElement(a, f.(loop := true), p, fns);
      LoopRenders(sem, a, f, p, fns, final, env, root, sem.items(a.forLoop.value.exp, env));
    } else if a.ifExp.Some? && !f.cond {
      var (thn, fns1) := GenElement(a, f.(cond := true), p, fns);
      BranchesRender(sem, a.otherwise, Beside(a, p), fns1, final, env, root);
      if sem.truthy(a.ifExp.value, env) {
        ElementRenders(sem, a, f.(cond := true), p, fns, final, env, root);
      }
    } else {
      PlainElementRenders(sem, a, f, p, fns, final, env, root);
    }
  }

  lemma {:induction false} PlainElementRenders(
    sem: Semantics, a: Ast, f: Flags, p: Place, fns: seq<Code>, final: seq<Code>, env: Env, root: Env)
    requires a.Element? && Parsed(a)
    requires (!IsStaticRoot(a, p) || f.hoisted) && (a.forLoop.None? || f.loop) && (a.ifExp.None? || f.cond)
    requires GenElement(a, f, p, fns).1 <= final
    ensures Flat(Eval(sem, GenElement(a, f, p, fns).0, env, root, final)) == InterpElement(sem, a, env)
    decreases a, 1
  {
    var (children, norm, fns1) := GenChildren(a.children, a.tag != "template", Below(a, p), fns);
    ChildrenRender(sem, a.children, a.tag != "template", Below(a, p), fns, final, env, root);
    if a.tag == "template" {
      assert GenElement(a, f, p, fns) == GenTemplate(a, p, fns);
    } else {
      var kids := KidsOf(sem, children, norm, env, root, final);
      if children.Some? {
        NormalizeKeepsNodes(norm, Eval(sem, children.value, env, root, final));
      }
      CreatedFlat(sem, a.tag, DataOf(sem, a.plain, a.attrs, env), kids);
    }
  }

  lemma {:induction false} HoistedRenders(
    sem: Semantics, a: Ast, f: Flags, p: Place, fns: seq<Code>, final: seq<Code>, env: Env, root: Env)
    requires a.Element? && Parsed(a) && (f.cond ==> f.loop || a.forLoop.None?)
    requires IsStaticRoot(a, p) && !f.hoisted && GenElement(a, f, p, fns).1 <= final
    ensures Flat(Eval(sem, GenElement(a, f, p, fns).0, env, root, final)) == InterpRest(sem, a, f, env)
    decreases a, 2, Unset(f) - 1, 1
  {
    var hoisted := f.(hoisted := true);
    var (code, fns1) := GenElement(a, hoisted, p, fns);
    StaticIsFixed(a, p);
    FixedGivesClosed(a, hoisted, p, fns);
    assert final[|fns1|] == code;
    ClosedValue(sem, code, env, root, final, root, root, final[..|fns1|]);
    ElementRenders(sem, a, hoisted, p, fns, final, env, root);
  }

  lemma {:induction false} LoopRenders(
    sem: Semantics, a: Ast, f: Flags, p: Place, fns: seq<Code>, final: seq<Code>, env: Env, root: Env, items: seq<Item>)
    requires a.Element? && Parsed(a) && a.forLoop.Some? && !f.loop && !f.cond
    requires GenElement(a, f.(loop := true), p, fns).1 <= final
    ensures var c := Loop(a.forLoop.value, GenElement(a, f.(loop := true), p, fns).0);
            FlatAll(EvalLoop(sem, c, env, root, final, items)) == InterpLoop(sem, a, env, items)
    decreases a, 2, Unset(f) - 1, 1 + |items|
  {
    if items != [] {
      ElementRenders(sem, a, f.(loop := true), p, fns, final, Bind(env, a.forLoop.value, items[0]), root);
      LoopRenders(sem, a, f, p, fns, final, env, root, items[1..]);
    }
  }

  lemma {:induction false} BranchesRender(
    sem: Semantics, bs: Branches, p: Place, fns: seq<Code>, final: seq<Code>, env: Env, root: Env)
    requires ParsedBranches(bs)
    requires GenBranches(bs, p, fns).1 <= final
    ensures Flat(Eval(sem, GenBranches(bs, p, fns).0, env, root, final)) == InterpBranches(sem, bs, env)
    decreases bs, 0
  {
    if bs.Branch? {
      var (thn, fns1) := GenNode(bs.block, p, fns);
      if bs.exp.Some? {
        BranchesRender(sem, bs.rest, p, fns1, final, env, root);
      }
      NodeRenders(sem, bs.block, p, fns, final, env, root);
    }
  }

  lemma {:induction false} NodeRenders(
    sem: Semantics, a: Ast, p: Place, fns: seq<Code>, final: seq<Code>, env: Env, root: Env)
    requires Parsed(a)
    requires GenNode(a, p, fns).1 <= final
    ensures Flat(Eval(sem, GenNode(a, p, fns).0, env, root, final)) == Interp(sem, a, env)
    decreases a, 3
  {
    if a.Element? {
      ElementRenders(sem, a, NoFlags, p, fns, final, env, root);
    }
  }

  lemma {:induction false} ChildrenRender(
    sem: Semantics, cs: seq<Ast>, checkSkip: bool, p: Place, fns: seq<Code>, final: seq<Code>, env: Env, root: Env)
    requires forall c | c in cs :: Parsed(c)
    requires GenChildren(cs, checkSkip, p, fns).2 <= final
    ensures var children := GenChildren(cs, checkSkip, p, fns).0;
            (if children.Some? then Flat(Eval(sem, children.value, env, root, final)) else []) == InterpAll(sem, cs, env)
    decreases cs, 1
  {
    if cs != [] {
      assert Parsed(cs[0]);
      if Shortcut(cs) {
        NodeRenders(sem, cs[0], p, fns, final, env, root);
        assert InterpAll(sem, cs, env) == Interp(sem, cs[0], env) + InterpAll(sem, cs[1..], env);
      } else {
        AllRender(sem, cs, p, fns, final, env, root);
      }
    }
  }

  lemma {:induction false} AllRender(
    sem: Semantics, cs: seq<Ast>, p: Place, fns: seq<Code>, final: seq<Code>, env: Env, root: Env)
    requires forall c | c in cs :: Parsed(c)
    requires GenAll(cs, p, fns).1 <= final
    ensures FlatAll(EvalAll(sem, GenAll(cs, p, fns).0, env, root, final)) == InterpAll(sem, cs, env)
    decreases cs, 0
  {
    if cs != [] {
      assert Parsed(cs[0]);
      var (code, fns1) := GenNode(cs[0], p, fns);
      var (codes, fns2) := GenAll(cs[1..], p, fns1);
      AllRender(sem, cs[1..], p, fns1, final, env, root);
      NodeRenders(sem, cs[0], p, fns, final, env, root);
      assert GenAll(cs, p, fns).0 == [code] + codes;
      assert ([code] + codes)[1..] == codes;
    }
  }

  /** `generate`: the render code and the static render functions of a template. */
  function Generate(ast: Ast, isReservedTag: string -> bool): (r: (Code, seq<Code>))
    requires ast.Element?
  {
    GenElement(ast, NoFlags, Place(isReservedTag, false, false, true, false), [])
  }

  /** Rendering with the generated code gives, on any data, the nodes the template means. */
  lemma GeneratedCodeRenders(sem: Semantics, ast: Ast, data: Env)
    requires ast.Element? && Parsed(ast)
    ensures var (code, fns) := Generate(ast, sem.isReservedTag);
            Flat(Eval(sem, code, data, data, fns)) == Interp(sem, ast, data)
  {
    var (code, fns) := Generate(ast, sem.isReservedTag);
    ElementRenders(sem, ast, NoFlags, Place(sem.isReservedTag, false, false, true, false), [], fns, data, data);
  }
}
