/** Parsed templates and what they mean: an interpreter that renders the tree
    directly, without generating code. */
module Template {

  datatype Option<+T> = None | Some(value: T)

  type Exp = string
  type Value = int
  type Env = map<string, Value>

  /** An attribute is a literal, or an expression bound to data. */
  datatype AttrValue = Literal(text: string) | Bound(exp: Exp)

  datatype Attr = Attr(name: string, value: AttrValue)

  datatype ForLoop = ForLoop(exp: Exp, alias: string, iterator1: Option<string>, iterator2: Option<string>)

  /** A node of the template tree. `otherwise` are the conditions after the element's
      own one in its `ifConditions`, with the elements they guard. */
  datatype Ast =
    | Element(
        tag: string, attrs: seq<Attr>, plain: bool, hasBindings: bool, extraKeys: bool, pre: bool,
        forLoop: Option<ForLoop>, ifExp: Option<Exp>, otherwise: Branches, children: seq<Ast>)
    | Expression(exp: Exp)
    | Text(text: string, isComment: bool)

  datatype Branches = NoMore | Branch(exp: Option<Exp>, block: Ast, rest: Branches)

  /** Rendered nodes. */
  datatype VNode =
    | VElement(tag: string, data: Option<seq<(string, string)>>, kids: seq<VNode>)
    | VText(text: string)
    | VComment(text: string)

  datatype Item = Item(value: Value, key: Value, index: Value)

  /** Nothing in the tree depends on data: no loop, condition, binding or expression. */
  predicate Fixed(a: Ast) {
    match a
    case Expression(_) => false
    case Text(_, _) => true
    case Element(_, attrs, _, _, _, _, forLoop, ifExp, _, children) =>
      forLoop.None? && ifExp.None? && (forall t | t in attrs :: t.value.Literal?) &&
      forall c | c in children :: Fixed(c)
  }

  const BUILT_IN_TAGS := {"slot", "component"}

  /** What `parse` guarantees of the trees it builds: below v-pre everything is taken
      literally, and a bound attribute leaves a trace in `hasBindings` or in a key that
      `isStaticKey` does not know; only an element with v-if has branches after its own, and
      an element with v-else or v-else-if has no v-if of its own.
      Slots and dynamic components are not part of the model. */
  predicate Parsed(a: Ast)
    decreases a
  {
    a.Element? ==>
      a.tag !in BUILT_IN_TAGS && (a.pre ==> Fixed(a)) && (a.ifExp.None? ==> a.otherwise.NoMore?) &&
      (a.hasBindings || a.extraKeys || forall t | t in a.attrs :: t.value.Literal?) &&
      (forall c | c in a.children :: Parsed(c)) && ParsedBranches(a.otherwise)
  }

  predicate ParsedBranches(bs: Branches)
    decreases bs
  {
    bs.Branch? ==>
      bs.block.Element? && bs.block.ifExp.None? && Parsed(bs.block) && ParsedBranches(bs.rest)
  }

  /** A tag that is not reserved names a component: one node stands for it, unless it is a
      functional component that returns a list. */
  datatype Rendered = One(node: VNode) | Many(nodes: seq<VNode>)

  /** What expressions and components do. */
  datatype Semantics = Semantics(
    truthy: (Exp, Env) -> bool,
    text: (Exp, Env) -> string,
    items: (Exp, Env) -> seq<Item>,
    component: (string, Option<seq<(string, string)>>, seq<VNode>) -> Rendered,
    isReservedTag: string -> bool)

  function Bind(env: Env, loop: ForLoop, item: Item): Env {
    var env1 := env[loop.alias := item.value];
    var env2 := if loop.iterator1.Some? then env1[loop.iterator1.value := item.key] else env1;
    if loop.iterator2.Some? then env2[loop.iterator2.value := item.index] else env2
  }

  /** The loop's names stand for the item's value, key and index, later ones before earlier ones
      of the same name; every other name keeps its value. */
  lemma BindBinds(env: Env, loop: ForLoop, item: Item)
    ensures var bound := Bind(env, loop, item);
            (loop.iterator2.Some? ==> loop.iterator2.value in bound && bound[loop.iterator2.value] == item.index) &&
            (loop.iterator1.Some? && loop.iterator1 != loop.iterator2 ==>
               loop.iterator1.value in bound && bound[loop.iterator1.value] == item.key) &&
            (loop.iterator1 != Some(loop.alias) && loop.iterator2 != Some(loop.alias) ==>
               loop.alias in bound && bound[loop.alias] == item.value) &&
            forall name | name != loop.alias && Some(name) != loop.iterator1 && Some(name) != loop.iterator2 ::
              (name in bound <==> name in env) && (name in env ==> bound[name] == env[name])
  {
  }

  function DataOf(sem: Semantics, plain: bool, attrs: seq<Attr>, env: Env): Option<seq<(string, string)>> {
    if plain then None
    else Some(seq(|attrs|, i requires 0 <= i < |attrs| =>
      (attrs[i].name,
       match attrs[i].value case Literal(t) => t case Bound(e) => sem.text(e, env))))
  }

  /** Every attribute appears with its name, in its order, with its literal text or the text of
      its expression on the data; a plain element has no data. */
  lemma DataExactly(sem: Semantics, plain: bool, attrs: seq<Attr>, env: Env)
    ensures var data := DataOf(sem, plain, attrs, env);
            (data.None? <==> plain) &&
            (data.Some? ==>
               |data.value| == |attrs| &&
               forall i | 0 <= i < |attrs| ::
                 data.value[i].0 == attrs[i].name &&
                 (attrs[i].value.Literal? ==> data.value[i].1 == attrs[i].value.text) &&
                 (attrs[i].value.Bound? ==> data.value[i].1 == sem.text(attrs[i].value.exp, env)))
  {
  }

  /** The nodes an element, component or wrapper makes once for-loop and condition are settled. */
  function Made(sem: Semantics, tag: string, data: Option<seq<(string, string)>>, kids: seq<VNode>): seq<VNode> {
    if sem.isReservedTag(tag) then [VElement(tag, data, kids)]
    else
      match sem.component(tag, data, kids)
      case One(node) => [node]
      case Many(nodes) => nodes
  }

  /** Rendering a node of the template: v-for goes before v-if. */
  function Interp(sem: Semantics, a: Ast, env: Env): seq<VNode>
    decreases a, 3
  {
    match a
    case Expression(exp) => [VText(sem.text(exp, env))]
    case Text(text, isComment) => if isComment then [VComment(text)] else [VText(text)]
    case Element(_, _, _, _, _, _, forLoop, _, _, _) =>
      if forLoop.Some? then
        InterpLoop(sem, a, env, sem.items(forLoop.value.exp, env))
      else InterpChoice(sem, a, env)
  }

  function InterpLoop(sem: Semantics, a: Ast, env: Env, items: seq<Item>): seq<VNode>
    requires a.Element? && a.forLoop.Some?
    decreases a, 2, |items|
  {
    if items == [] then []
    else InterpChoice(sem, a, Bind(env, a.forLoop.value, items[0])) + InterpLoop(sem, a, env, items[1..])
  }

  /** The v-if chain that starts at the element. */
  function InterpChoice(sem: Semantics, a: Ast, env: Env): seq<VNode>
    requires a.Element?
    decreases a, 1
  {
    if a.ifExp.None? || sem.truthy(a.ifExp.value, env) then InterpElement(sem, a, env)
    else InterpBranches(sem, a.otherwise, env)
  }

  /** An empty comment stands for a chain without a true condition. */
  function InterpBranches(sem: Semantics, bs: Branches, env: Env): seq<VNode>
    decreases bs, 0
  {
    match bs
    case NoMore => [VComment("")]
    case Branch(exp, block, rest) =>
      if exp.None? || sem.truthy(exp.value, env) then Interp(sem, block, env)
      else InterpBranches(sem, rest, env)
  }

  function InterpElement(sem: Semantics, a: Ast, env: Env): seq<VNode>
    requires a.Element?
    decreases a, 0
  {
    var kids := InterpAll(sem, a.children, env);
    if a.tag == "template" then kids
    else Made(sem, a.tag, DataOf(sem, a.plain, a.attrs, env), kids)
  }

  /** What a template means: a loop renders its element once for each item, a chain of branches
      renders the first that applies, and a loop goes before a condition. */
  lemma TemplateMeans(sem: Semantics, a: Ast, bs: Branches, env: Env)
    ensures a.Text? ==> Interp(sem, a, env) == [if a.isComment then VComment(a.text) else VText(a.text)]
    ensures a.Expression? ==> Interp(sem, a, env) == [VText(sem.text(a.exp, env))]
    ensures a.Element? && a.forLoop.Some? ==> Interp(sem, a, env) == InterpLoop(sem, a, env, sem.items(a.forLoop.value.exp, env))
    ensures a.Element? && a.forLoop.None? ==> Interp(sem, a, env) == InterpChoice(sem, a, env)
    ensures a.Element? ==>
      InterpChoice(sem, a, env) ==
        (if a.ifExp.Some? && !sem.truthy(a.ifExp.value, env) then InterpBranches(sem, a.otherwise, env)
         else InterpElement(sem, a, env))
    ensures InterpBranches(sem, NoMore, env) == [VComment("")]
    ensures a.Element? && a.tag == "template" ==> InterpElement(sem, a, env) == InterpAll(sem, a.children, env)
    ensures a.Element? && a.tag != "template" && sem.isReservedTag(a.tag) ==>
      InterpElement(sem, a, env) ==
        [VElement(a.tag, DataOf(sem, a.plain, a.attrs, env), InterpAll(sem, a.children, env))]
    ensures a.Element? && a.tag != "template" && !sem.isReservedTag(a.tag) ==>
      InterpElement(sem, a, env) ==
        match sem.component(a.tag, DataOf(sem, a.plain, a.attrs, env), InterpAll(sem, a.children, env))
        case One(node) => [node]
        case Many(nodes) => nodes
  {
  }

  lemma {:induction false} FirstBranchRenders(sem: Semantics, bs: Branches, env: Env)
    ensures match FirstBranch(sem, bs, env)
            case None => InterpBranches(sem, bs, env) == [VComment("")]
            case Some(block) => InterpBranches(sem, bs, env) == Interp(sem, block, env)
  {
    if bs.Branch? {
      FirstBranchRenders(sem, bs.rest, env);
    }
  }

  /** The first branch whose condition is absent or true. */
  function FirstBranch(sem: Semantics, bs: Branches, env: Env): Option<Ast> {
    if bs.NoMore? then None
    else if bs.exp.Some? && !sem.truthy(bs.exp.value, env) then FirstBranch(sem, bs.rest, env)
    else Some(bs.block)
  }

  function InterpAll(sem: Semantics, cs: seq<Ast>, env: Env): seq<VNode>
    decreases cs, 0
  {
    if cs == [] then [] else Interp(sem, cs[0], env) + InterpAll(sem, cs[1..], env)
  }
}
