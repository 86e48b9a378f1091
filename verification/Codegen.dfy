/** The code generator: `genElement` and its helpers, the code they emit as an
    expression tree, and what that code evaluates to. */
module Codegen {
  import opened Template

  /** Emitted code; each constructor is one of the forms the helpers print. */
  datatype Code =
    | Create(tag: string, plain: bool, attrs: seq<Attr>, children: Option<Code>, norm: nat)  // _c(tag,data,children,norm)
    | List(items: seq<Code>)                                                                 // [a,b]
    | Loop(loop: ForLoop, body: Code)                                                        // _l((exp),function(..){..})
    | Cond(exp: Exp, thn: Code, els: Code)                                                   // (exp)?thn:els
    | TextOf(exp: Exp)                                                                       // _v(exp)
    | TextLit(text: string)                                                                  // _v("text")
    | Empty                                                                                  // _e()
    | CommentLit(text: string)                                                               // _e("text")
    | Static(index: nat, inFor: bool)                                                        // _m(index,true)
    | Void                                                                                   // void 0

  /** What the optimizer and the generator have to know about the place of a node: the
      reserved tags, whether it is a direct child of a looping template, whether it is in
      a loop, whether `markStatic$1` gets there, and whether it is below a static root. */
  datatype Place = Place(isReservedTag: string -> bool, templateFor: bool, inFor: bool, marked: bool, belowRoot: bool)

  // --------------------------------------------------------------- optimizer

  /** `isStatic` of an element. */
  predicate OwnStatic(a: Ast, p: Place)
    requires a.Element?
  {
    a.pre ||
    (!a.hasBindings && a.ifExp.None? && a.forLoop.None? &&
     a.tag !in BUILT_IN_TAGS && p.isReservedTag(a.tag) && !p.templateFor && !a.extraKeys)
  }

  /** `markStatic$1` looks at the children and branches of reserved tags only. */
  predicate Visits(a: Ast, p: Place)
    requires a.Element?
  {
    p.marked && (p.isReservedTag(a.tag) || a.tag == "slot")
  }

  /** The place of the children of an element. */
  function Inside(a: Ast, p: Place): Place
    requires a.Element?
  {
    p.(templateFor := a.tag == "template" && (a.forLoop.Some? || p.templateFor),
       inFor := p.inFor || a.forLoop.Some?,
       marked := Visits(a, p))
  }

  /** The place of the branches after an element's own. */
  function Beside(a: Ast, p: Place): Place
    requires a.Element?
  {
    p.(marked := Visits(a, p))
  }

  /** `node.static` of a node that `markStatic$1` gets to. */
  predicate IsStatic(a: Ast, p: Place)
    decreases a
  {
    match a
    case Expression(_) => false
    case Text(_, _) => true
    case Element(tag, _, _, _, _, _, _, _, otherwise, children) =>
      OwnStatic(a, p) &&
      (p.isReservedTag(tag) || tag == "slot" ==>
        (forall c | c in children :: IsStatic(c, Inside(a, p))) && BranchesStatic(otherwise, Beside(a, p)))
  }

  predicate BranchesStatic(bs: Branches, p: Place)
    decreases bs
  {
    bs.Branch? ==> IsStatic(bs.block, p) && BranchesStatic(bs.rest, p)
  }

  /** A direct child of a looping template, also through templates in between, is not static; a
      child is in a loop if its parent is or loops. */
  lemma InsideALoop(a: Ast, c: Ast, p: Place)
    requires a.Element? && c.Element?
    ensures a.tag == "template" && (a.forLoop.Some? || p.templateFor) && !c.pre ==> !IsStatic(c, Inside(a, p))
    ensures a.tag != "template" || (a.forLoop.None? && !p.templateFor) ==> !Inside(a, p).templateFor
    ensures Inside(a, p).inFor <==> p.inFor || a.forLoop.Some?
    ensures Inside(a, p).marked <==> p.marked && (p.isReservedTag(a.tag) || a.tag == "slot")
    ensures Beside(a, p).marked <==> p.marked && (p.isReservedTag(a.tag) || a.tag == "slot")
  {
  }

  /** `node.staticRoot` after `markStaticRoots`. */
  predicate IsStaticRoot(a: Ast, p: Place) {
    a.Element? && p.marked && !p.belowRoot && IsStatic(a, p) && a.children != [] && !(|a.children| == 1 && a.children[0].Text?)
  }

  function Below(a: Ast, p: Place): Place
    requires a.Element?
  {
    Inside(a, p).(belowRoot := p.belowRoot || IsStaticRoot(a, p))
  }

  // --------------------------------------------------------------- generator

  /** `needsNormalization` */
  predicate NeedsNormalization(a: Ast) {
    a.Element? && (a.forLoop.Some? || a.tag == "template" || a.tag == "slot")
  }

  predicate BranchesNeed(bs: Branches) {
    bs.Branch? && (NeedsNormalization(bs.block) || BranchesNeed(bs.rest))
  }

  predicate MaybeComponent(a: Ast, p: Place) {
    a.Element? && !p.isReservedTag(a.tag)
  }

  predicate BranchesMaybe(bs: Branches, p: Place) {
    bs.Branch? && (MaybeComponent(bs.block, p) || BranchesMaybe(bs.rest, p))
  }

  /** `getNormalizationType` */
  function NormalizationType(cs: seq<Ast>, p: Place): (r: nat)
    ensures r <= 2
  {
    if cs == [] then 0
    else if cs[0].Element? && (NeedsNormalization(cs[0]) || (cs[0].ifExp.Some? && BranchesNeed(cs[0].otherwise))) then 2
    else
      var rest := NormalizationType(cs[1..], p);
      if rest == 2 then 2
      else if cs[0].Element? && (MaybeComponent(cs[0], p) || (cs[0].ifExp.Some? && BranchesMaybe(cs[0].otherwise, p))) then 1
      else rest
  }

  /** A loop, a template or a slot. */
  predicate Wraps(a: Ast) {
    a.Element? && (a.forLoop.Some? || a.tag == "template" || a.tag == "slot")
  }

  /** The elements of the branches. */
  function Blocks(bs: Branches): seq<Ast> {
    if bs.NoMore? then [] else [bs.block] + Blocks(bs.rest)
  }

  /** The element, and what may stand in its place. */
  function Alternatives(a: Ast): seq<Ast> {
    if a.Element? && a.ifExp.Some? then [a] + Blocks(a.otherwise) else [a]
  }

  lemma {:induction false} BlocksNeed(bs: Branches, p: Place)
    ensures BranchesNeed(bs) <==> exists b | b in Blocks(bs) :: Wraps(b)
    ensures BranchesMaybe(bs, p) <==> exists b | b in Blocks(bs) :: b.Element? && !p.isReservedTag(b.tag)
  {
    if bs.Branch? {
      BlocksNeed(bs.rest, p);
      assert forall b :: b in Blocks(bs) <==> b == bs.block || b in Blocks(bs.rest);
    }
  }

  predicate SomeWraps(a: Ast) {
    a.Element? && exists b | b in Alternatives(a) :: Wraps(b)
  }

  predicate SomeComponent(a: Ast, p: Place) {
    a.Element? && exists b | b in Alternatives(a) :: b.Element? && !p.isReservedTag(b.tag)
  }

  lemma AlternativesDecide(a: Ast, p: Place)
    requires a.Element?
    ensures SomeWraps(a) <==> NeedsNormalization(a) || (a.ifExp.Some? && BranchesNeed(a.otherwise))
    ensures SomeComponent(a, p) <==> MaybeComponent(a, p) || (a.ifExp.Some? && BranchesMaybe(a.otherwise, p))
  {
    BlocksNeed(a.otherwise, p);
    assert forall b :: b in Alternatives(a) <==> b == a || (a.ifExp.Some? && b in Blocks(a.otherwise));
  }

  /** Full normalization is asked for exactly if a child, or what may stand in its place, is a
      loop, template or slot; else simple normalization exactly if one is a component. */
  lemma {:induction false} NormalizationExactly(cs: seq<Ast>, p: Place)
    ensures NormalizationType(cs, p) == 2 <==> exists c | c in cs :: SomeWraps(c)
    ensures NormalizationType(cs, p) >= 1 <==> exists c | c in cs :: SomeWraps(c) || SomeComponent(c, p)
  {
    if cs != [] {
      NormalizationExactly(cs[1..], p);
      assert forall c :: c in cs <==> c == cs[0] || c in cs[1..];
      if cs[0].Element? {
        AlternativesDecide(cs[0], p);
      }
      hide SomeWraps, SomeComponent, NeedsNormalization, BranchesNeed, MaybeComponent, BranchesMaybe;
    }
  }

  /** The processed flags of an element. */
  datatype Flags = Flags(hoisted: bool, loop: bool, cond: bool)

  const NoFlags := Flags(false, false, false)

  function Unset(f: Flags): nat {
    (if f.hoisted then 0 else 1) + (if f.loop then 0 else 1) + (if f.cond then 0 else 1)
  }

  /** `genElement`, with the static render functions generated so far. */
  function GenElement(a: Ast, f: Flags, p: Place, fns: seq<Code>): (r: (Code, seq<Code>))
    requires a.Element?
    ensures fns <= r.1
    decreases a, 2, Unset(f)
  {
    if IsStaticRoot(a, p) && !f.hoisted then
      var (code, fns1) := GenElement(a, f.(hoisted := true), p, fns);
      (Static(|fns1|, p.inFor), fns1 + [code])
    else if a.forLoop.Some? && !f.loop then
      var (code, fns1) := GenElement(a, f.(loop := true), p, fns);
      (Loop(a.forLoop.value, code), fns1)
    else if a.ifExp.Some? && !f.cond then
      var (thn, fns1) := GenElement(a, f.(cond := true), p, fns);
      var (els, fns2) := GenBranches(a.otherwise, Beside(a, p), fns1);
      (Cond(a.ifExp.value, thn, els), fns2)
    else if a.tag == "template" then
      GenTemplate(a, p, fns)
    else
      var (children, norm, fns1) := GenChildren(a.children, true, Below(a, p), fns);
      (Create(a.tag, a.plain, a.attrs, children, norm), fns1)
  }

  function GenTemplate(a: Ast, p: Place, fns: seq<Code>): (r: (Code, seq<Code>))
    requires a.Element?
    ensures fns <= r.1
    decreases a, 1
  {
    var (children, _, fns1) := GenChildren(a.children, false, Below(a, p), fns);
    (if children.Some? then children.value else Void, fns1)
  }

  /** `genIfConditions` after the element's own condition. */
  function GenBranches(bs: Branches, p: Place, fns: seq<Code>): (r: (Code, seq<Code>))
    ensures fns <= r.1
    decreases bs, 0
  {
    match bs
    case NoMore => (Empty, fns)
    case Branch(exp, block, rest) =>
      var (thn, fns1) := GenNode(block, p, fns);
      if exp.None? then (thn, fns1)
      else
        var (els, fns2) := GenBranches(rest, p, fns1);
        (Cond(exp.value, thn, els), fns2)
  }

  /** `genNode` */
  function GenNode(a: Ast, p: Place, fns: seq<Code>): (r: (Code, seq<Code>))
    ensures fns <= r.1
    decreases a, 3
  {
    match a
    case Expression(exp) => (TextOf(exp), fns)
    case Text(text, isComment) => (if isComment then CommentLit(text) else TextLit(text), fns)
    case Element(_, _, _, _, _, _, _, _, _, _) => GenElement(a, NoFlags, p, fns)
  }

  /** A single looping child that is neither a template nor a slot. */
  predicate Shortcut(cs: seq<Ast>) {
    |cs| == 1 && cs[0].Element? && cs[0].forLoop.Some? && cs[0].tag != "template" && cs[0].tag != "slot"
  }

  /** `genChildren`: the children, and the normalization type when it is asked for. */
  function GenChildren(cs: seq<Ast>, checkSkip: bool, p: Place, fns: seq<Code>): (r: (Option<Code>, nat, seq<Code>))
    ensures fns <= r.2
    decreases cs, 1
  {
    if cs == [] then (None, 0, fns)
    else if Shortcut(cs) then
      var (code, fns1) := GenNode(cs[0], p, fns);
      (Some(code), 0, fns1)
    else
      var (items, fns1) := GenAll(cs, p, fns);
      (Some(List(items)), if checkSkip then NormalizationType(cs, p) else 0, fns1)
  }

  function GenAll(cs: seq<Ast>, p: Place, fns: seq<Code>): (r: (seq<Code>, seq<Code>))
    ensures fns <= r.1
    decreases cs, 0
  {
    if cs == [] then ([], fns)
    else
      var (code, fns1) := GenNode(cs[0], p, fns);
      var (codes, fns2) := GenAll(cs[1..], p, fns1);
      ([code] + codes, fns2)
  }

  // ------------------------------------------------- what the emitted code evaluates to

  /** Values of render code before they are flattened. */
  datatype Val =
    | Undefined
    | Arr(items: seq<Val>)
    | Elem(tag: string, data: Option<seq<(string, string)>>, kids: seq<Val>)
    | TextVal(text: string)
    | CommentVal(text: string)

  /** The nodes in a value, in order, whatever the nesting. */
  function Flat(v: Val): seq<VNode>
    decreases v, 1
  {
    match v
    case Undefined => []
    case Arr(items) => FlatAll(items)
    case Elem(tag, data, kids) => [VElement(tag, data, FlatAll(kids))]
    case TextVal(text) => [VText(text)]
    case CommentVal(text) => [VComment(text)]
  }

  function FlatAll(vs: seq<Val>): seq<VNode>
    decreases vs, 0
  {
    if vs == [] then [] else Flat(vs[0]) + FlatAll(vs[1..])
  }

  function Lift(n: VNode): Val
    decreases n, 1
  {
    match n
    case VElement(tag, data, kids) => Elem(tag, data, LiftAll(kids))
    case VText(text) => TextVal(text)
    case VComment(text) => CommentVal(text)
  }

  function LiftAll(ns: seq<VNode>): (r: seq<Val>)
    ensures |r| == |ns| && forall i :: 0 <= i < |ns| ==> r[i] == Lift(ns[i])
    decreases ns, 0
  {
    if ns == [] then [] else [Lift(ns[0])] + LiftAll(ns[1..])
  }

  predicate IsNode(v: Val) {
    v.Elem? || v.TextVal? || v.CommentVal?
  }

  /** `normalizeChildren`: nested arrays are flattened to any depth. */
  function FullyFlat(vs: seq<Val>): seq<Val> {
    if vs == [] then []
    else
      (match vs[0]
       case Undefined => []
       case Arr(items) => FullyFlat(items)
       case _ => [vs[0]]) + FullyFlat(vs[1..])
  }

  /** `simpleNormalizeChildren`: one level of nested arrays is concatenated. */
  function OneLevelFlat(vs: seq<Val>): seq<Val> {
    if vs == [] then []
    else (if vs[0].Arr? then vs[0].items else [vs[0]]) + OneLevelFlat(vs[1..])
  }

  function Normalize(norm: nat, v: Val): seq<Val> {
    match v
    case Arr(items) =>
      if norm == 2 then FullyFlat(items) else if norm == 1 then OneLevelFlat(items) else items
    case Undefined => []
    case _ => [v]
  }

  /** `_c`: an element, or what a component returns. */
  function Created(sem: Semantics, tag: string, data: Option<seq<(string, string)>>, kids: seq<Val>): Val {
    if sem.isReservedTag(tag) then Elem(tag, data, kids)
    else
      match sem.component(tag, data, FlatAll(kids))
      case One(node) => Lift(node)
      case Many(nodes) => Arr(LiftAll(nodes))
  }

  /** Evaluation of render code; a static tree is rendered afresh from its function,
      in which only the instance's own data `root` is in scope. */
  function Eval(sem: Semantics, c: Code, env: Env, root: Env, fns: seq<Code>): Val
    decreases |fns|, c, 1
  {
    match c
    case Create(tag, plain, attrs, children, norm) =>
      Created(sem, tag, DataOf(sem, plain, attrs, env), KidsOf(sem, children, norm, env, root, fns))
    case List(items) => Arr(EvalAll(sem, items, env, root, fns))
    case Loop(loop, body) => Arr(EvalLoop(sem, c, env, root, fns, sem.items(loop.exp, env)))
    case Cond(exp, thn, els) =>
      if sem.truthy(exp, env) then Eval(sem, thn, env, root, fns) else Eval(sem, els, env, root, fns)
    case TextOf(exp) => TextVal(sem.text(exp, env))
    case TextLit(text) => TextVal(text)
    case Empty => CommentVal("")
    case CommentLit(text) => CommentVal(text)
    case Static(index, _) =>
      if index < |fns| then Eval(sem, fns[index], root, root, fns[..index]) else Undefined
    case Void => Undefined
  }

  /** What the emitted forms mean: the conditional takes its branches as JavaScript does, `_l`
      calls its function once for each item in order, `_v` makes texts and `_e` comments, and
      `_m` runs a static render function on the instance's own data. */
  lemma FormsMean(sem: Semantics, exp: Exp, thn: Code, els: Code, loop: ForLoop, text: string, env: Env, root: Env, fns: seq<Code>)
    ensures Eval(sem, Cond(exp, thn, els), env, root, fns) ==
            (if sem.truthy(exp, env) then Eval(sem, thn, env, root, fns) else Eval(sem, els, env, root, fns))
    ensures var v, items := Eval(sem, Loop(loop, thn), env, root, fns), sem.items(loop.exp, env);
            v.Arr? && |v.items| == |items| &&
            forall i | 0 <= i < |items| :: v.items[i] == Eval(sem, thn, Bind(env, loop, items[i]), root, fns)
    ensures var v := Eval(sem, List([thn, els]), env, root, fns);
            v.Arr? && v.items == [Eval(sem, thn, env, root, fns), Eval(sem, els, env, root, fns)]
    ensures Eval(sem, TextOf(exp), env, root, fns) == TextVal(sem.text(exp, env))
    ensures Eval(sem, TextLit(text), env, root, fns) == TextVal(text)
    ensures Eval(sem, CommentLit(text), env, root, fns) == CommentVal(text)
    ensures Eval(sem, Empty, env, root, fns) == CommentVal("")
    ensures forall i: nat, inFor | i < |fns| ::
      Eval(sem, Static(i, inFor), env, root, fns) == Eval(sem, fns[i], root, root, fns[..i])
  {
    var both := [thn, els];
    assert EvalAll(sem, both, env, root, fns) == [Eval(sem, both[0], env, root, fns), Eval(sem, both[1], env, root, fns)];
  }

  /** The children that `_c` is called with, once normalized. */
  function KidsOf(sem: Semantics, children: Option<Code>, norm: nat, env: Env, root: Env, fns: seq<Code>): seq<Val>
    decreases |fns|, children, 2
  {
    if children.None? then [] else Normalize(norm, Eval(sem, children.value, env, root, fns))
  }

  function EvalAll(sem: Semantics, cs: seq<Code>, env: Env, root: Env, fns: seq<Code>): (r: seq<Val>)
    ensures |r| == |cs| && forall i :: 0 <= i < |cs| ==> r[i] == Eval(sem, cs[i], env, root, fns)
    decreases |fns|, cs, 0
  {
    if cs == [] then [] else [Eval(sem, cs[0], env, root, fns)] + EvalAll(sem, cs[1..], env, root, fns)
  }

  function EvalLoop(sem: Semantics, c: Code, env: Env, root: Env, fns: seq<Code>, items: seq<Item>): (r: seq<Val>)
    requires c.Loop?
    ensures |r| == |items|
    ensures forall i :: 0 <= i < |items| ==> r[i] == Eval(sem, c.body, Bind(env, c.loop, items[i]), root, fns)
    decreases |fns|, c, 0, |items|
  {
    if items == [] then []
    else [Eval(sem, c.body, Bind(env, c.loop, items[0]), root, fns)] + EvalLoop(sem, c, env, root, fns, items[1..])
  }
}
