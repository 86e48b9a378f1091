/** Whether createElement always receives a flat list of nodes. The generator chooses how
    much normalization each children list gets; for a single looping child it asks for
    none, which is not always enough. */
module Nesting {
  import opened Template
  import opened Codegen
  import opened Rendering

  predicate AllNodes(vs: seq<Val>) {
    forall v | v in vs :: IsNode(v)
  }

  /** Every call of createElement while the code runs is given a flat list of nodes. */
  predicate FlatCalls(sem: Semantics, c: Code, env: Env, root: Env, fns: seq<Code>)
    decreases |fns|, c, 1
  {
    match c
    case Create(_, _, _, children, norm) =>
      AllNodes(KidsOf(sem, children, norm, env, root, fns)) &&
      (children.Some? ==> FlatCalls(sem, children.value, env, root, fns))
    case List(items) => forall i | 0 <= i < |items| :: FlatCalls(sem, items[i], env, root, fns)
    case Loop(loop, body) => FlatLoop(sem, c, env, root, fns, sem.items(loop.exp, env))
    case Cond(exp, thn, els) =>
      if sem.truthy(exp, env) then FlatCalls(sem, thn, env, root, fns) else FlatCalls(sem, els, env, root, fns)
    case Static(index, _) =>
      index < |fns| ==> FlatCalls(sem, fns[index], root, root, fns[..index])
    case _ => true
  }

  predicate FlatLoop(sem: Semantics, c: Code, env: Env, root: Env, fns: seq<Code>, items: seq<Item>)
    requires c.Loop?
    decreases |fns|, c, 0, |items|
  {
    items == [] ||
    (FlatCalls(sem, c.body, Bind(env, c.loop, items[0]), root, fns) && FlatLoop(sem, c, env, root, fns, items[1..]))
  }

  // ------------------------------------------- the condition, on the template alone

  /** The element itself renders to one node. */
  predicate OneMade(sem: Semantics, a: Ast, env: Env)
    requires a.Element?
  {
    sem.isReservedTag(a.tag) ||
    sem.component(a.tag, DataOf(sem, a.plain, a.attrs, env), InterpAll(sem, a.children, env)).One?
  }

  predicate OneBranch(sem: Semantics, bs: Branches, env: Env)
    requires ParsedBranches(bs)
  {
    match bs
    case NoMore => true
    case Branch(exp, block, rest) =>
      if exp.None? || sem.truthy(exp.value, env)
      then block.forLoop.None? && block.tag != "template" && OneMade(sem, block, env)
      else OneBranch(sem, rest, env)
  }

  /** The v-if chain at the element renders to one node: neither a list that a functional
      component returns, nor a looping or template branch. */
  predicate OneNode(sem: Semantics, a: Ast, env: Env)
    requires a.Element? && ParsedBranches(a.otherwise)
  {
    if a.ifExp.None? || sem.truthy(a.ifExp.value, env) then OneMade(sem, a, env)
    else OneBranch(sem, a.otherwise, env)
  }

  predicate OneNodeEach(sem: Semantics, a: Ast, env: Env, items: seq<Item>)
    requires a.Element? && a.forLoop.Some? && ParsedBranches(a.otherwise)
  {
    forall i | 0 <= i < |items| :: OneNode(sem, a, Bind(env, a.forLoop.value, items[i]))
  }

  /** Wherever the rendered part of the template has an element with a single looping child,
      that child renders to one node for every item. */
  predicate Sound(sem: Semantics, a: Ast, env: Env)
    requires Parsed(a)
    decreases a, 3
  {
    a.Element? ==>
      if a.forLoop.Some? then SoundLoop(sem, a, env, sem.items(a.forLoop.value.exp, env))
      else SoundChoice(sem, a, env)
  }

  predicate SoundLoop(sem: Semantics, a: Ast, env: Env, items: seq<Item>)
    requires Parsed(a) && a.Element? && a.forLoop.Some?
    decreases a, 2, |items|
  {
    items == [] ||
    (SoundChoice(sem, a, Bind(env, a.forLoop.value, items[0])) && SoundLoop(sem, a, env, items[1..]))
  }

  predicate SoundChoice(sem: Semantics, a: Ast, env: Env)
    requires Parsed(a) && a.Element?
    decreases a, 1
  {
    if a.ifExp.None? || sem.truthy(a.ifExp.value, env) then SoundElement(sem, a, env)
    else SoundBranches(sem, a.otherwise, env)
  }

  predicate SoundBranches(sem: Semantics, bs: Branches, env: Env)
    requires ParsedBranches(bs)
    decreases bs, 0
  {
    bs.Branch? ==>
      if bs.exp.None? || sem.truthy(bs.exp.value, env) then Sound(sem, bs.block, env)
      else SoundBranches(sem, bs.rest, env)
  }

  predicate SoundElement(sem: Semantics, a: Ast, env: Env)
    requires Parsed(a) && a.Element?
    decreases a, 0
  {
    (a.tag != "template" && Shortcut(a.children) ==>
      var c := a.children[0];
      assert Parsed(c);
      OneNodeEach(sem, c, env, sem.items(c.forLoop.value.exp, env))) &&
    SoundAll(sem, a.children, env)
  }

  predicate SoundAll(sem: Semantics, cs: seq<Ast>, env: Env)
    requires forall c | c in cs :: Parsed(c)
    decreases cs, 0
  {
    cs == [] || (assert Parsed(cs[0]); Sound(sem, cs[0], env) && SoundAll(sem, cs[1..], env))
  }

  // ------------------------------------------------------------ shapes of values

  predicate IsList(v: Val) {
    v.Arr? && AllNodes(v.items)
  }

  lemma {:induction false} FullyFlatIsFlat(vs: seq<Val>)
    ensures AllNodes(FullyFlat(vs))
  {
    if vs != [] {
      FullyFlatIsFlat(vs[1..]);
      if vs[0].Arr? {
        FullyFlatIsFlat(vs[0].items);
      }
    }
  }

  lemma {:induction false} OneLevelIsFlat(vs: seq<Val>)
    requires forall v | v in vs :: IsNode(v) || IsList(v)
    ensures AllNodes(OneLevelFlat(vs))
  {
    if vs != [] {
      assert vs[0] in vs;
      OneLevelIsFlat(vs[1..]);
    }
  }

  lemma LiftedAreNodes(ns: seq<VNode>)
    ensures AllNodes(LiftAll(ns))
  {
    forall i | 0 <= i < |ns| ensures IsNode(LiftAll(ns)[i]) {
      FlatLift(ns[i]);
    }
  }

  /** An element that is neither looping nor a template gives one node exactly when the
      reserved tag or the component says so, and otherwise a list of nodes. */
  lemma {:induction false} ElementShape(
    sem: Semantics, a: Ast, f: Flags, p: Place, fns: seq<Code>, final: seq<Code>, env: Env, root: Env)
    requires a.Element? && Parsed(a) && a.tag != "template"
    requires (!IsStaticRoot(a, p) || f.hoisted) && (a.forLoop.None? || f.loop) && (a.ifExp.None? || f.cond)
    requires GenElement(a, f, p, fns).1 <= final
    ensures var v := Eval(sem, GenElement(a, f, p, fns).0, env, root, final);
            (IsNode(v) <==> OneMade(sem, a, env)) && (IsNode(v) || IsList(v))
  {
    var (children, norm, fns1) := GenChildren(a.children, true, Below(a, p), fns);
    ChildrenRender(sem, a.children, true, Below(a, p), fns, final, env, root);
    var kids := KidsOf(sem, children, norm, env, root, final);
    if children.Some? {
      NormalizeKeepsNodes(norm, Eval(sem, children.value, env, root, final));
    }
    assert FlatAll(kids) == InterpAll(sem, a.children, env);
    if !sem.isReservedTag(a.tag) {
      match sem.component(a.tag, DataOf(sem, a.plain, a.attrs, env), FlatAll(kids))
      case One(node) => FlatLift(node);
      case Many(nodes) => LiftedAreNodes(nodes);
    }
  }

  /** The value of a chain of branches. */
  lemma {:induction false} BranchesShape(
    sem: Semantics, bs: Branches, p: Place, fns: seq<Code>, final: seq<Code>, env: Env, root: Env)
    requires ParsedBranches(bs)
    requires GenBranches(bs, p, fns).1 <= final
    ensures var v := Eval(sem, GenBranches(bs, p, fns).0, env, root, final);
            (IsNode(v) <==> OneBranch(sem, bs, env)) && (!BranchesNeed(bs) ==> IsNode(v) || IsList(v))
    decreases bs
  {
    if bs.Branch? {
      var (thn, fns1) := GenNode(bs.block, p, fns);
      if bs.exp.Some? {
        BranchesShape(sem, bs.rest, p, fns1, final, env, root);
      }
      BlockShape(sem, bs.block, p, fns, final, env, root);
    }
  }

  lemma BlockShape(sem: Semantics, a: Ast, p: Place, fns: seq<Code>, final: seq<Code>, env: Env, root: Env)
    requires a.Element? && Parsed(a) && a.ifExp.None?
    requires GenNode(a, p, fns).1 <= final
    ensures var v := Eval(sem, GenNode(a, p, fns).0, env, root, final);
            (IsNode(v) <==> a.forLoop.None? && a.tag != "template" && OneMade(sem, a, env)) &&
            (!NeedsNormalization(a) ==> IsNode(v) || IsList(v))
  {
    if IsStaticRoot(a, p) {
      HoistedValue(sem, a, NoFlags, p, fns, final, env, root);
    }
    var f := if IsStaticRoot(a, p) then NoFlags.(hoisted := true) else NoFlags;
    if a.forLoop.None? {
      if a.tag != "template" {
        ElementShape(sem, a, f, p, fns, final, env, root);
      } else {
        assert GenElement(a, f, p, fns) == GenTemplate(a, p, fns);
        ChildrenCode(a.children, false, Below(a, p), fns);
      }
    }
  }

  lemma ChildrenCode(cs: seq<Ast>, checkSkip: bool, p: Place, fns: seq<Code>)
    requires forall c | c in cs :: Parsed(c)
    ensures var (code, norm, fns1) := GenChildren(cs, checkSkip, p, fns);
            code.Some? ==>
              if Shortcut(cs) then
                var (body, fns2) := GenElement(cs[0], NoFlags.(loop := true), p, fns);
                code.value == Loop(cs[0].forLoop.value, body) && norm == 0 && fns1 == fns2
              else code.value.List?
  {
    if Shortcut(cs) {
      assert Parsed(cs[0]);
      if IsStatic(cs[0], p) {
        StaticIsFixed(cs[0], p);
      }
      assert GenNode(cs[0], p, fns) == GenElement(cs[0], NoFlags, p, fns);
      var (body, fns2) := GenElement(cs[0], NoFlags.(loop := true), p, fns);
      assert GenElement(cs[0], NoFlags, p, fns) == (Loop(cs[0].forLoop.value, body), fns2);
    }
  }

  /** A hoisted tree has the value its code would have in place. */
  lemma HoistedValue(
    sem: Semantics, a: Ast, f: Flags, p: Place, fns: seq<Code>, final: seq<Code>, env: Env, root: Env)
    requires a.Element? && Parsed(a) && IsStaticRoot(a, p) && !f.hoisted
    requires GenElement(a, f, p, fns).1 <= final
    ensures Eval(sem, GenElement(a, f, p, fns).0, env, root, final)
         == Eval(sem, GenElement(a, f.(hoisted := true), p, fns).0, env, root, final)
    ensures GenElement(a, f.(hoisted := true), p, fns).1 <= final
    ensures a.forLoop.None? && a.ifExp.None?
  {
    var (code, fns1) := GenElement(a, f.(hoisted := true), p, fns);
    StaticIsFixed(a, p);
    FixedGivesClosed(a, f.(hoisted := true), p, fns);
    assert final[|fns1|] == code;
    ClosedValue(sem, code, env, root, final, root, root, final[..|fns1|]);
  }

  /** The value of an element whose loop, if any, is already accounted for. */
  lemma ChoiceShape(
    sem: Semantics, a: Ast, f: Flags, p: Place, fns: seq<Code>, final: seq<Code>, env: Env, root: Env)
    requires a.Element? && Parsed(a) && a.tag != "template" && (a.forLoop.None? || f.loop) && !f.cond && !f.hoisted
    requires GenElement(a, f, p, fns).1 <= final
    ensures var v := Eval(sem, GenElement(a, f, p, fns).0, env, root, final);
            (IsNode(v) <==> OneNode(sem, a, env)) &&
            (a.ifExp.None? || !BranchesNeed(a.otherwise) ==> IsNode(v) || IsList(v))
  {
    if IsStaticRoot(a, p) {
      HoistedValue(sem, a, f, p, fns, final, env, root);
      ElementShape(sem, a, f.(hoisted := true), p, fns, final, env, root);
    } else if a.ifExp.Some? {
      var (thn, fns1) := GenElement(a, f.(cond := true), p, fns);
      BranchesShape(sem, a.otherwise, Beside(a, p), fns1, final, env, root);
      ElementShape(sem, a, f.(cond := true), p, fns, final, env, root);
    } else {
      ElementShape(sem, a, f, p, fns, final, env, root);
    }
  }

  // ------------------------------------------------------------ the exact condition

  lemma {:induction false} ClosedFlatCalls(sem: Semantics, c: Code, env: Env, root: Env, fns: seq<Code>,
                                           env': Env, root': Env, fns': seq<Code>)
    requires Closed(c)
    ensures FlatCalls(sem, c, env, root, fns) == FlatCalls(sem, c, env', root', fns')
    decreases c
  {
    match c
    case Create(_, _, _, children, norm) =>
      if children.Some? {
        ClosedFlatCalls(sem, children.value, env, root, fns, env', root', fns');
        ClosedValue(sem, children.value, env, root, fns, env', root', fns');
      }
    case List(items) =>
      forall i | 0 <= i < |items|
        ensures FlatCalls(sem, items[i], env, root, fns) == FlatCalls(sem, items[i], env', root', fns')
      {
        ClosedFlatCalls(sem, items[i], env, root, fns, env', root', fns');
      }
    case _ =>
  }

  predicate SoundRest(sem: Semantics, a: Ast, f: Flags, env: Env)
    requires a.Element? && Parsed(a)
  {
    if a.forLoop.Some? && !f.loop then Sound(sem, a, env)
    else if !f.cond then SoundChoice(sem, a, env)
    else SoundElement(sem, a, env)
  }

  lemma {:induction false} ElementCalls(
    sem: Semantics, a: Ast, f: Flags, p: Place, fns: seq<Code>, final: seq<Code>, env: Env, root: Env)
    requires a.Element? && Parsed(a) && (f.cond ==> f.loop || a.forLoop.None?) && p.isReservedTag == sem.isReservedTag
    requires GenElement(a, f, p, fns).1 <= final
    ensures FlatCalls(sem, GenElement(a, f, p, fns).0, env, root, final) == SoundRest(sem, a, f, env)
    decreases a, 2, Unset(f), 0
  {
    if IsStaticRoot(a, p) && !f.hoisted {
      var hoisted := f.(hoisted := true);
      var (code, fns1) := GenElement(a, hoisted, p, fns);
      StaticIsFixed(a, p);
      FixedGivesClosed(a, hoisted, p, fns);
      assert final[|fns1|] == code;
      ClosedFlatCalls(sem, code, env, root, final, root, root, final[..|fns1|]);
      ElementCalls(sem, a, hoisted, p, fns, final, env, root);
    } else if a.forLoop.Some? && !f.loop {
      var (code, fns1) := GenElement(a, f.(loop := true), p, fns);
      LoopCalls(sem, a, f, p, fns, final, env, root, sem.items(a.forLoop.value.exp, env));
    } else if a.ifExp.Some? && !f.cond {
      var (thn, fns1) := GenElement(a, f.(cond := true), p, fns);
      BranchesCalls(sem, a.otherwise, Beside(a, p), fns1, final, env, root);
      if sem.truthy(a.ifExp.value, env) {
        ElementCalls(sem, a, f.(cond := true), p, fns, final, env, root);
      }
    } else {
      assert SoundRest(sem, a, f, env) == SoundElement(sem, a, env);
      PlainElementCalls(sem, a, f, p, fns, final, env, root);
    }
  }

  lemma {:induction false} LoopCalls(
    sem: Semantics, a: Ast, f: Flags, p: Place, fns: seq<Code>, final: seq<Code>, env: Env, root: Env, items: seq<Item>)
    requires a.Element? && Parsed(a) && a.forLoop.Some? && !f.loop && !f.cond && p.isReservedTag == sem.isReservedTag
    requires GenElement(a, f.(loop := true), p, fns).1 <= final
    ensures var c := Loop(a.forLoop.value, GenElement(a, f.(loop := true), p, fns).0);
            FlatLoop(sem, c, env, root, final, items) == SoundLoop(sem, a, env, items)
    decreases a, 2, Unset(f) - 1, 1 + |items|
  {
    if items != [] {
      ElementCalls(sem, a, f.(loop := true), p, fns, final, Bind(env, a.forLoop.value, items[0]), root);
      LoopCalls(sem, a, f, p, fns, final, env, root, items[1..]);
    }
  }

  lemma {:induction false} PlainElementCalls(
    sem: Semantics, a: Ast, f: Flags, p: Place, fns: seq<Code>, final: seq<Code>, env: Env, root: Env)
    requires a.Element? && Parsed(a) && p.isReservedTag == sem.isReservedTag
    requires (!IsStaticRoot(a, p) || f.hoisted) && (a.forLoop.None? || f.loop) && (a.ifExp.None? || f.cond)
    requires GenElement(a, f, p, fns).1 <= final
    ensures FlatCalls(sem, GenElement(a, f, p, fns).0, env, root, final) == SoundElement(sem, a, env)
    decreases a, 1
  {
    var inside := Below(a, p);
    var (children, norm, fns1) := GenChildren(a.children, a.tag != "template", inside, fns);
    if a.tag == "template" {
      assert GenElement(a, f, p, fns) == GenTemplate(a, p, fns);
    }
    ChildrenCalls(sem, a.children, a.tag != "template", inside, fns, final, env, root);
    if a.tag != "template" {
      KidsShape(sem, a.children, inside, fns, final, env, root);
    }
  }

  lemma {:induction false} BranchesCalls(
    sem: Semantics, bs: Branches, p: Place, fns: seq<Code>, final: seq<Code>, env: Env, root: Env)
    requires ParsedBranches(bs) && p.isReservedTag == sem.isReservedTag
    requires GenBranches(bs, p, fns).1 <= final
    ensures FlatCalls(sem, GenBranches(bs, p, fns).0, env, root, final) == SoundBranches(sem, bs, env)
    decreases bs, 0
  {
    if bs.Branch? {
      var (thn, fns1) := GenNode(bs.block, p, fns);
      if bs.exp.Some? {
        BranchesCalls(sem, bs.rest, p, fns1, final, env, root);
      }
      NodeCalls(sem, bs.block, p, fns, final, env, root);
    }
  }

  lemma {:induction false} NodeCalls(
    sem: Semantics, a: Ast, p: Place, fns: seq<Code>, final: seq<Code>, env: Env, root: Env)
    requires Parsed(a) && p.isReservedTag == sem.isReservedTag
    requires GenNode(a, p, fns).1 <= final
    ensures FlatCalls(sem, GenNode(a, p, fns).0, env, root, final) == Sound(sem, a, env)
    decreases a, 3
  {
    if a.Element? {
      ElementCalls(sem, a, NoFlags, p, fns, final, env, root);
    }
  }

  lemma {:induction false} ChildrenCalls(
    sem: Semantics, cs: seq<Ast>, checkSkip: bool, p: Place, fns: seq<Code>, final: seq<Code>, env: Env, root: Env)
    requires (forall c | c in cs :: Parsed(c)) && p.isReservedTag == sem.isReservedTag
    requires GenChildren(cs, checkSkip, p, fns).2 <= final
    ensures var children := GenChildren(cs, checkSkip, p, fns).0;
            (children.Some? ==> FlatCalls(sem, children.value, env, root, final)) == SoundAll(sem, cs, env)
    decreases cs, 1
  {
    if cs != [] {
      assert Parsed(cs[0]);
      if Shortcut(cs) {
        NodeCalls(sem, cs[0], p, fns, final, env, root);
        assert cs[1..] == [];
        assert SoundAll(sem, cs, env) == Sound(sem, cs[0], env);
      } else {
        AllCalls(sem, cs, p, fns, final, env, root);
      }
    }
  }

  lemma {:induction false} AllCalls(
    sem: Semantics, cs: seq<Ast>, p: Place, fns: seq<Code>, final: seq<Code>, env: Env, root: Env)
    requires (forall c | c in cs :: Parsed(c)) && p.isReservedTag == sem.isReservedTag
    requires GenAll(cs, p, fns).1 <= final
    ensures var items := GenAll(cs, p, fns).0;
            (forall i | 0 <= i < |items| :: FlatCalls(sem, items[i], env, root, final)) == SoundAll(sem, cs, env)
    decreases cs, 0
  {
    if cs != [] {
      assert Parsed(cs[0]);
      var (code, fns1) := GenNode(cs[0], p, fns);
      var (codes, fns2) := GenAll(cs[1..], p, fns1);
      AllCalls(sem, cs[1..], p, fns1, final, env, root);
      NodeCalls(sem, cs[0], p, fns, final, env, root);
      var items := GenAll(cs, p, fns).0;
      assert items == [code] + codes;
      if forall i | 0 <= i < |items| :: FlatCalls(sem, items[i], env, root, final) {
        forall i | 0 <= i < |codes| ensures FlatCalls(sem, codes[i], env, root, final) {
          assert codes[i] == items[i + 1];
        }
        assert items[0] == code;
      } else {
        assert !(forall i | 0 <= i < |codes| :: FlatCalls(sem, codes[i], env, root, final))
            || !FlatCalls(sem, code, env, root, final) by {
          var i :| 0 <= i < |items| && !FlatCalls(sem, items[i], env, root, final);
          assert i == 0 || items[i] == codes[i - 1];
        }
      }
    }
  }

  // ------------------------------------------------------------ what normalization leaves

  /** The children list of an element is flat, but for the single looping child. */
  lemma KidsShape(
    sem: Semantics, cs: seq<Ast>, p: Place, fns: seq<Code>, final: seq<Code>, env: Env, root: Env)
    requires (forall c | c in cs :: Parsed(c)) && p.isReservedTag == sem.isReservedTag
    requires GenChildren(cs, true, p, fns).2 <= final
    ensures var (children, norm, _) := GenChildren(cs, true, p, fns);
            AllNodes(KidsOf(sem, children, norm, env, root, final)) ==
            (Shortcut(cs) ==>
               assert Parsed(cs[0]);
               OneNodeEach(sem, cs[0], env, sem.items(cs[0].forLoop.value.exp, env)))
  {
    var (children, norm, fns1) := GenChildren(cs, true, p, fns);
    if Shortcut(cs) {
      assert Parsed(cs[0]);
      ChildrenCode(cs, true, p, fns);
      LoopShape(sem, cs[0], p, fns, final, env, root, sem.items(cs[0].forLoop.value.exp, env));
    } else if cs != [] {
      var vs := EvalAll(sem, GenAll(cs, p, fns).0, env, root, final);
      if norm == 2 {
        FullyFlatIsFlat(vs);
      } else {
        ItemsShape(sem, cs, p, fns, final, env, root);
        if norm == 1 {
          OneLevelIsFlat(vs);
        }
      }
    }
  }

  lemma {:induction false} LoopShape(
    sem: Semantics, a: Ast, p: Place, fns: seq<Code>, final: seq<Code>, env: Env, root: Env, items: seq<Item>)
    requires a.Element? && Parsed(a) && a.forLoop.Some? && a.tag != "template"
    requires GenElement(a, NoFlags.(loop := true), p, fns).1 <= final
    ensures var c := Loop(a.forLoop.value, GenElement(a, NoFlags.(loop := true), p, fns).0);
            AllNodes(EvalLoop(sem, c, env, root, final, items)) == OneNodeEach(sem, a, env, items)
  {
    var c := Loop(a.forLoop.value, GenElement(a, NoFlags.(loop := true), p, fns).0);
    var vs := EvalLoop(sem, c, env, root, final, items);
    forall i | 0 <= i < |items| ensures IsNode(vs[i]) == OneNode(sem, a, Bind(env, a.forLoop.value, items[i])) {
      ChoiceShape(sem, a, NoFlags.(loop := true), p, fns, final, Bind(env, a.forLoop.value, items[i]), root);
    }
    if AllNodes(vs) {
      assert forall i | 0 <= i < |items| :: vs[i] in vs && IsNode(vs[i]);
    }
  }

  /** Where the generator asks for less than full normalization, each child gives one node,
      or, if it may be a component, at worst a list of nodes. */
  lemma {:induction false} ItemsShape(
    sem: Semantics, cs: seq<Ast>, p: Place, fns: seq<Code>, final: seq<Code>, env: Env, root: Env)
    requires (forall c | c in cs :: Parsed(c)) && p.isReservedTag == sem.isReservedTag
    requires NormalizationType(cs, p) < 2 && GenAll(cs, p, fns).1 <= final
    ensures forall v | v in EvalAll(sem, GenAll(cs, p, fns).0, env, root, final) :: IsNode(v) || IsList(v)
    ensures NormalizationType(cs, p) == 0 ==> AllNodes(EvalAll(sem, GenAll(cs, p, fns).0, env, root, final))
    decreases cs
  {
    if cs != [] {
      assert Parsed(cs[0]);
      var (code, fns1) := GenNode(cs[0], p, fns);
      var (codes, fns2) := GenAll(cs[1..], p, fns1);
      ItemsShape(sem, cs[1..], p, fns1, final, env, root);
      if cs[0].Element? {
        ChoiceShape(sem, cs[0], NoFlags, p, fns, final, env, root);
        if NormalizationType(cs, p) == 0 {
          ReservedMakesOne(sem, cs[0].otherwise, p, env);
        }
      }
      var vs := EvalAll(sem, GenAll(cs, p, fns).0, env, root, final);
      assert ([code] + codes)[1..] == codes;
      assert vs == [Eval(sem, code, env, root, final)] + EvalAll(sem, codes, env, root, final);
    }
  }

  lemma {:induction false} ReservedMakesOne(sem: Semantics, bs: Branches, p: Place, env: Env)
    requires ParsedBranches(bs) && p.isReservedTag == sem.isReservedTag
    ensures !BranchesNeed(bs) && !BranchesMaybe(bs, p) ==> OneBranch(sem, bs, env)
  {
    if bs.Branch? {
      ReservedMakesOne(sem, bs.rest, p, env);
    }
  }

  // ------------------------------------------------------------ main results

  /** Rendering gives createElement only flat lists of nodes exactly when every single
      looping child renders to one node for each item. */
  lemma FlatExactlyWhenSound(sem: Semantics, ast: Ast, data: Env)
    requires ast.Element? && Parsed(ast)
    ensures var (code, fns) := Generate(ast, sem.isReservedTag);
            FlatCalls(sem, code, data, data, fns) <==> Sound(sem, ast, data)
  {
    var (code, fns) := Generate(ast, sem.isReservedTag);
    ElementCalls(sem, ast, NoFlags, Place(sem.isReservedTag, false, false, true, false), [], fns, data, data);
  }

  /** No single looping child is, or has in its v-if chain, a component, a loop or a template. */
  predicate Safe(a: Ast, p: Place)
    requires Parsed(a)
    decreases a
  {
    a.Element? ==>
      (a.tag != "template" && Shortcut(a.children) ==>
        var c := a.children[0];
        assert Parsed(c);
        !MaybeComponent(c, p) && !BranchesNeed(c.otherwise) && !BranchesMaybe(c.otherwise, p)) &&
      (forall c | c in a.children :: Safe(c, p)) && SafeBranches(a.otherwise, p)
  }

  predicate SafeBranches(bs: Branches, p: Place)
    requires ParsedBranches(bs)
    decreases bs
  {
    bs.Branch? ==> Safe(bs.block, p) && SafeBranches(bs.rest, p)
  }

  /** A safe template is rendered from flat lists on all data and whatever components do. */
  lemma {:induction false} SafeIsSound(sem: Semantics, a: Ast, p: Place, env: Env)
    requires Parsed(a) && Safe(a, p) && p.isReservedTag == sem.isReservedTag
    ensures Sound(sem, a, env)
    decreases a, 2
  {
    if a.Element? {
      if a.forLoop.Some? {
        SafeLoopIsSound(sem, a, p, env, sem.items(a.forLoop.value.exp, env));
      } else {
        SafeChoiceIsSound(sem, a, p, env);
      }
    }
  }

  lemma {:induction false} SafeLoopIsSound(sem: Semantics, a: Ast, p: Place, env: Env, items: seq<Item>)
    requires Parsed(a) && Safe(a, p) && p.isReservedTag == sem.isReservedTag && a.Element? && a.forLoop.Some?
    ensures SoundLoop(sem, a, env, items)
    decreases a, 1, |items|
  {
    if items != [] {
      SafeChoiceIsSound(sem, a, p, Bind(env, a.forLoop.value, items[0]));
      SafeLoopIsSound(sem, a, p, env, items[1..]);
    }
  }

  lemma {:induction false} SafeChoiceIsSound(sem: Semantics, a: Ast, p: Place, env: Env)
    requires Parsed(a) && Safe(a, p) && p.isReservedTag == sem.isReservedTag && a.Element?
    ensures SoundChoice(sem, a, env)
    decreases a, 0
  {
    SafeBranchesAreSound(sem, a.otherwise, p, env);
    SafeAllAreSound(sem, a.children, p, env);
    if a.tag != "template" && Shortcut(a.children) {
      var c := a.children[0];
      assert Parsed(c);
      var items := sem.items(c.forLoop.value.exp, env);
      forall i | 0 <= i < |items| ensures OneNode(sem, c, Bind(env, c.forLoop.value, items[i])) {
        ReservedMakesOne(sem, c.otherwise, p, Bind(env, c.forLoop.value, items[i]));
      }
    }
  }

  lemma {:induction false} SafeBranchesAreSound(sem: Semantics, bs: Branches, p: Place, env: Env)
    requires ParsedBranches(bs) && SafeBranches(bs, p) && p.isReservedTag == sem.isReservedTag
    ensures SoundBranches(sem, bs, env)
    decreases bs
  {
    if bs.Branch? {
      SafeIsSound(sem, bs.block, p, env);
      SafeBranchesAreSound(sem, bs.rest, p, env);
    }
  }

  lemma {:induction false} SafeAllAreSound(sem: Semantics, cs: seq<Ast>, p: Place, env: Env)
    requires (forall c | c in cs :: Parsed(c)) && (forall c | c in cs :: Safe(c, p))
    requires p.isReservedTag == sem.isReservedTag
    ensures SoundAll(sem, cs, env)
    decreases cs
  {
    if cs != [] {
      assert Parsed(cs[0]) && Safe(cs[0], p);
      SafeIsSound(sem, cs[0], p, env);
      SafeAllAreSound(sem, cs[1..], p, env);
    }
  }

  function Tag(tag: string, children: seq<Ast>): Ast {
    Element(tag, [], true, false, false, false, None, None, NoMore, children)
  }

  /** `<div><p v-for="x in xs" v-if="x"></p><template v-else>a</template></div>` */
  function NestingTemplate(): Ast {
    Tag("div", [
      Element("p", [], true, false, true, false, Some(ForLoop("xs", "x", None, None)), Some("x"),
        Branch(None, Element("template", [], true, false, true, false, None, None, NoMore, [Text("a", false)]), NoMore),
        [])])
  }

  /** The template above, on a list with a false item: the `div` gets an array within its
      children array, and the generator asked for no normalization. */
  lemma ShortcutLeavesNesting(sem: Semantics, data: Env, item: Item)
    requires sem.isReservedTag("div") && sem.isReservedTag("p") && sem.isReservedTag("template")
    requires sem.items("xs", data) == [item] && !sem.truthy("x", data["x" := item.value])
    ensures var (code, fns) := Generate(NestingTemplate(), sem.isReservedTag);
            Parsed(NestingTemplate()) && !FlatCalls(sem, code, data, data, fns)
  {
    var ast := NestingTemplate();
    var p := ast.children[0];
    assert ParsedBranches(p.otherwise) by {
      assert Parsed(p.otherwise.block.children[0]);
    }
    assert Parsed(p);
    FlatExactlyWhenSound(sem, ast, data);
    assert Bind(data, p.forLoop.value, item) == data["x" := item.value];
    assert !OneNodeEach(sem, p, data, [item]) by {
      assert !OneNode(sem, p, Bind(data, p.forLoop.value, [item][0]));
    }
  }
}
