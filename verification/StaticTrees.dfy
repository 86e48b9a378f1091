/** A component instance keeps the static trees it has rendered. Rendering with that cache
    is proved to give, at every later state of the data, what rendering afresh would give. */
module StaticTrees {
  import opened Template
  import opened Codegen
  import opened Rendering

  predicate AllClosed(fns: seq<Code>) {
    forall fn | fn in fns :: Closed(fn)
  }

  /** Every static render function the generator emits is closed. */
  lemma {:induction false} HoistedAreClosed(a: Ast, f: Flags, p: Place, fns: seq<Code>)
    requires a.Element? && Parsed(a) && AllClosed(fns)
    ensures AllClosed(GenElement(a, f, p, fns).1)
    decreases a, 2, Unset(f)
  {
    if IsStaticRoot(a, p) && !f.hoisted {
      StaticIsFixed(a, p);
      FixedGivesClosed(a, f.(hoisted := true), p, fns);
      HoistedAreClosed(a, f.(hoisted := true), p, fns);
    } else if a.forLoop.Some? && !f.loop {
      HoistedAreClosed(a, f.(loop := true), p, fns);
    } else if a.ifExp.Some? && !f.cond {
      HoistedAreClosed(a, f.(cond := true), p, fns);
      BranchesHoistedAreClosed(a.otherwise, Beside(a, p), GenElement(a, f.(cond := true), p, fns).1);
    } else {
      if a.tag == "template" {
        assert GenElement(a, f, p, fns) == GenTemplate(a, p, fns);
      }
      ChildrenHoistedAreClosed(a.children, a.tag != "template", Below(a, p), fns);
    }
  }

  lemma {:induction false} BranchesHoistedAreClosed(bs: Branches, p: Place, fns: seq<Code>)
    requires ParsedBranches(bs) && AllClosed(fns)
    ensures AllClosed(GenBranches(bs, p, fns).1)
    decreases bs
  {
    if bs.Branch? {
      HoistedAreClosed(bs.block, NoFlags, p, fns);
      if bs.exp.Some? {
        BranchesHoistedAreClosed(bs.rest, p, GenNode(bs.block, p, fns).1);
      }
    }
  }

  lemma {:induction false} ChildrenHoistedAreClosed(cs: seq<Ast>, checkSkip: bool, p: Place, fns: seq<Code>)
    requires (forall c | c in cs :: Parsed(c)) && AllClosed(fns)
    ensures AllClosed(GenChildren(cs, checkSkip, p, fns).2)
    decreases cs, 3
  {
    if cs != [] {
      assert Parsed(cs[0]);
      if Shortcut(cs) {
        HoistedAreClosed(cs[0], NoFlags, p, fns);
      } else {
        AllHoistedAreClosed(cs, p, fns);
      }
    }
  }

  lemma {:induction false} AllHoistedAreClosed(cs: seq<Ast>, p: Place, fns: seq<Code>)
    requires (forall c | c in cs :: Parsed(c)) && AllClosed(fns)
    ensures AllClosed(GenAll(cs, p, fns).1)
    decreases cs, 2
  {
    if cs != [] {
      assert Parsed(cs[0]);
      if cs[0].Element? {
        HoistedAreClosed(cs[0], NoFlags, p, fns);
      }
      AllHoistedAreClosed(cs[1..], p, GenNode(cs[0], p, fns).1);
    }
  }

  const NO_DATA: Env := map[]

  /** A component instance: its static render functions and `_staticTrees`. */
  class Instance {
    const sem: Semantics
    const fns: seq<Code>
    var staticTrees: map<nat, Val>
    /** How often static render functions have run. */
    ghost var runs: nat

    /** Each cached tree is what its function renders; closed code needs no data. */
    ghost predicate Valid()
      reads this
    {
      AllClosed(fns) &&
      forall i | i in staticTrees :: i < |fns| && staticTrees[i] == Eval(sem, fns[i], NO_DATA, NO_DATA, fns[..i])
    }

    constructor (sem: Semantics, fns: seq<Code>)
      requires AllClosed(fns)
      ensures Valid() && this.sem == sem && this.fns == fns && staticTrees == map[]
    {
      this.sem, this.fns, this.staticTrees, runs := sem, fns, map[], 0;
    }

    /** `renderStatic`: a tree that is cached is used again, unless it is in a loop. */
    method RenderStatic(index: nat, inFor: bool, root: Env) returns (tree: Val)
      requires Valid() && index < |fns|
      modifies this
      ensures Valid() && tree == Eval(sem, fns[index], root, root, fns[..index])
      ensures index in staticTrees && staticTrees[index] == tree
      ensures if old(index in staticTrees && staticTrees[index] != Undefined) && !inFor
              then staticTrees == old(staticTrees) && runs == old(runs) else runs > old(runs)
      decreases index
    {
      ClosedValue(sem, fns[index], root, root, fns[..index], NO_DATA, NO_DATA, fns[..index]);
      if index in staticTrees && staticTrees[index] != Undefined && !inFor {
        return staticTrees[index];
      }
      tree := Render(fns[index], root, root, index);
      runs := runs + 1;
      staticTrees := staticTrees[index := tree];
    }

    /** Running render code on an instance whose data is `root`; only the first `bound`
        static render functions are used. */
    method Render(c: Code, env: Env, root: Env, bound: nat) returns (v: Val)
      requires Valid() && bound <= |fns|
      modifies this
      ensures Valid() && v == Eval(sem, c, env, root, fns[..bound]) && runs >= old(runs)
      decreases bound, c, 1
    {
      match c
      case Create(tag, plain, attrs, children, norm) =>
        var kids := [];
        if children.Some? {
          var list := Render(children.value, env, root, bound);
          kids := Normalize(norm, list);
        }
        v := Created(sem, tag, DataOf(sem, plain, attrs, env), kids);
      case List(items) =>
        var vs := [];
        for i := 0 to |items|
          invariant Valid() && |vs| == i && runs >= old(runs)
          invariant forall j | 0 <= j < i :: vs[j] == Eval(sem, items[j], env, root, fns[..bound])
        {
          var item := Render(items[i], env, root, bound);
          vs := vs + [item];
        }
        assert vs == EvalAll(sem, items, env, root, fns[..bound]);
        v := Arr(vs);
      case Loop(loop, body) =>
        v := RenderList(c, env, root, bound);
      case Cond(exp, thn, els) =>
        if sem.truthy(exp, env) {
          v := Render(thn, env, root, bound);
        } else {
          v := Render(els, env, root, bound);
        }
      case Static(index, inFor) =>
        if index >= bound {
          return Undefined;
        }
        v := RenderStatic(index, inFor, root);
        assert fns[..bound][..index] == fns[..index];
      case TextOf(exp) => v := TextVal(sem.text(exp, env));
      case TextLit(text) => v := TextVal(text);
      case CommentLit(text) => v := CommentVal(text);
      case Empty => v := CommentVal("");
      case Void => v := Undefined;
    }

    /** `renderList` */
    method RenderList(c: Code, env: Env, root: Env, bound: nat) returns (v: Val)
      requires Valid() && bound <= |fns| && c.Loop?
      modifies this
      ensures Valid() && v == Eval(sem, c, env, root, fns[..bound]) && runs >= old(runs)
      decreases bound, c, 0
    {
      var items := sem.items(c.loop.exp, env);
      var ret := [];
      for i := 0 to |items|
        invariant Valid() && |ret| == i && runs >= old(runs)
        invariant forall j | 0 <= j < i :: ret[j] == Eval(sem, c.body, Bind(env, c.loop, items[j]), root, fns[..bound])
      {
        var item := Render(c.body, Bind(env, c.loop, items[i]), root, bound);
        ret := ret + [item];
      }
      assert ret == EvalLoop(sem, c, env, root, fns[..bound], items);
      v := Arr(ret);
    }
  }

  /** An instance of a template's component, rendered again and again while its data goes
      through any sequence of states: each time the nodes are those the template means on
      the data of that moment, although static trees are rendered once and then reused. */
  method RenderAgain(sem: Semantics, ast: Ast, states: seq<Env>) returns (views: seq<seq<VNode>>)
    requires ast.Element? && Parsed(ast)
    ensures |views| == |states| && forall k | 0 <= k < |states| :: views[k] == Interp(sem, ast, states[k])
  {
    var (code, fns) := Generate(ast, sem.isReservedTag);
    HoistedAreClosed(ast, NoFlags, Place(sem.isReservedTag, false, false, true, false), []);
    var instance := new Instance(sem, fns);
    views := [];
    for i := 0 to |states|
      invariant instance.Valid() && fresh(instance) && instance.sem == sem && instance.fns == fns
      invariant |views| == i && forall k | 0 <= k < i :: views[k] == Interp(sem, ast, states[k])
    {
      var v := instance.Render(code, states[i], states[i], |fns|);
      GeneratedCodeRenders(sem, ast, states[i]);
      assert fns[..|fns|] == fns;
      views := views + [Flat(v)];
    }
  }
}
