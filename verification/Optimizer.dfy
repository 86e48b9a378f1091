/** The optimizer's passes and the choice of the normalization type as the loops they are.
    The flags that the passes set on the nodes of a tree are a tree of the same shape. */
module Optimizer {
  import opened Template
  import opened Codegen

  datatype Flagged = Flagged(isStatic: bool, staticRoot: bool, staticInFor: bool, children: seq<Flagged>, blocks: seq<Flagged>)

  // ------------------------------------------------------------ markStatic$1

  /** The static flag of every node that the pass gets to, and none elsewhere. */
  predicate StaticMarked(m: Flagged, a: Ast, p: Place)
    decreases a
  {
    m.isStatic == (p.marked && IsStatic(a, p)) && !m.staticRoot && !m.staticInFor &&
    (a.Element? ==>
       |m.children| == |a.children| &&
       (forall i | 0 <= i < |a.children| :: StaticMarked(m.children[i], a.children[i], Inside(a, p))) &&
       BlocksMarked(m.blocks, a.otherwise, Beside(a, p)))
  }

  predicate BlocksMarked(ms: seq<Flagged>, bs: Branches, p: Place)
    decreases bs
  {
    if bs.NoMore? then ms == []
    else ms != [] && StaticMarked(ms[0], bs.block, p) && BlocksMarked(ms[1..], bs.rest, p)
  }

  /** A tree that the pass does not get to. */
  function Unmarked(a: Ast, p: Place): (m: Flagged)
    requires !p.marked
    ensures StaticMarked(m, a, p)
    decreases a, 1
  {
    match a
    case Element(_, _, _, _, _, _, _, _, otherwise, children) =>
      Flagged(false, false, false, UnmarkedAll(children, Inside(a, p)), UnmarkedBlocks(otherwise, Beside(a, p)))
    case _ => Flagged(false, false, false, [], [])
  }

  function UnmarkedAll(cs: seq<Ast>, p: Place): (ms: seq<Flagged>)
    requires !p.marked
    ensures |ms| == |cs| && forall i | 0 <= i < |cs| :: StaticMarked(ms[i], cs[i], p)
    decreases cs, 0
  {
    if cs == [] then [] else [Unmarked(cs[0], p)] + UnmarkedAll(cs[1..], p)
  }

  function UnmarkedBlocks(bs: Branches, p: Place): (ms: seq<Flagged>)
    requires !p.marked
    ensures BlocksMarked(ms, bs, p)
    decreases bs, 0
  {
    if bs.NoMore? then [] else [Unmarked(bs.block, p)] + UnmarkedBlocks(bs.rest, p)
  }

  /** `markStatic$1`: the node's own test, then everything inside must be static as well; a
      tag that is not reserved is not looked into. */
  method MarkStatic(a: Ast, p: Place) returns (m: Flagged)
    requires p.marked
    ensures StaticMarked(m, a, p)
    decreases a, 1
  {
    match a
    case Expression(_) => m := Flagged(false, false, false, [], []);
    case Text(_, _) => m := Flagged(true, false, false, [], []);
    case Element(tag, _, _, _, _, _, _, _, otherwise, children) =>
      var isStatic := OwnStatic(a, p);
      if !p.isReservedTag(tag) && tag != "slot" {
        return Flagged(isStatic, false, false, UnmarkedAll(children, Inside(a, p)), UnmarkedBlocks(otherwise, Beside(a, p)));
      }
      var marked: seq<Flagged> := [];
      for i := 0 to |children|
        invariant |marked| == i && forall k | 0 <= k < i :: StaticMarked(marked[k], children[k], Inside(a, p))
        invariant isStatic == (OwnStatic(a, p) && forall k | 0 <= k < i :: IsStatic(children[k], Inside(a, p)))
      {
        var child := MarkStatic(children[i], Inside(a, p));
        marked := marked + [child];
        if !child.isStatic {
          isStatic := false;
        }
      }
      var blocks, allStatic := MarkBlocks(otherwise, Beside(a, p));
      m := Flagged(isStatic && allStatic, false, false, marked, blocks);
  }

  method MarkBlocks(bs: Branches, p: Place) returns (ms: seq<Flagged>, allStatic: bool)
    requires p.marked
    ensures BlocksMarked(ms, bs, p) && allStatic == BranchesStatic(bs, p)
    decreases bs, 0
  {
    if bs.NoMore? {
      return [], true;
    }
    var block := MarkStatic(bs.block, p);
    var rest;
    rest, allStatic := MarkBlocks(bs.rest, p);
    ms, allStatic := [block] + rest, block.isStatic && allStatic;
  }

  // ------------------------------------------------------------ markStaticRoots

  /** Every static root is flagged and knows whether it is in a loop; below a static root
      nothing is flagged. */
  predicate RootsMarked(m: Flagged, a: Ast, p: Place)
    decreases a
  {
    m.staticRoot == IsStaticRoot(a, p) && (m.staticRoot ==> m.staticInFor == p.inFor) &&
    (a.Element? ==>
       |m.children| == |a.children| &&
       (forall i | 0 <= i < |a.children| :: RootsMarked(m.children[i], a.children[i], Below(a, p))) &&
       BlockRootsMarked(m.blocks, a.otherwise, Beside(a, p)))
  }

  predicate BlockRootsMarked(ms: seq<Flagged>, bs: Branches, p: Place)
    decreases bs
  {
    if bs.NoMore? then ms == []
    else ms != [] && RootsMarked(ms[0], bs.block, p) && BlockRootsMarked(ms[1..], bs.rest, p)
  }

  /** A tree below a static root keeps its flags from the first pass. */
  lemma {:induction false} NoRootsBelow(m: Flagged, a: Ast, p: Place, q: Place)
    requires StaticMarked(m, a, p) && q.belowRoot
    ensures RootsMarked(m, a, q)
    decreases a
  {
    if a.Element? {
      forall i | 0 <= i < |a.children| ensures RootsMarked(m.children[i], a.children[i], Below(a, q)) {
        NoRootsBelow(m.children[i], a.children[i], Inside(a, p), Below(a, q));
      }
      NoBlockRootsBelow(m.blocks, a.otherwise, Beside(a, p), Beside(a, q));
    }
  }

  lemma {:induction false} NoBlockRootsBelow(ms: seq<Flagged>, bs: Branches, p: Place, q: Place)
    requires BlocksMarked(ms, bs, p) && q.belowRoot
    ensures BlockRootsMarked(ms, bs, q)
    decreases bs
  {
    if bs.Branch? {
      NoRootsBelow(ms[0], bs.block, p, q);
      NoBlockRootsBelow(ms[1..], bs.rest, p, q);
    }
  }

  /** A static element has no v-if of its own, so no branches either. */
  lemma NoBranchesOfStatic(a: Ast, p: Place)
    requires a.Element? && Parsed(a) && IsStatic(a, p)
    ensures a.otherwise.NoMore?
  {
  }

  /** `markStaticRoots` on a tree that the first pass has marked. */
  method MarkStaticRoots(a: Ast, m: Flagged, p: Place) returns (r: Flagged)
    requires Parsed(a) && StaticMarked(m, a, p) && !p.belowRoot
    ensures RootsMarked(r, a, p) && r.isStatic == m.isStatic
    decreases a, 1
  {
    r := m;
    if !a.Element? {
      return;
    }
    if m.isStatic {
      r := r.(staticInFor := p.inFor);
    }
    if m.isStatic && a.children != [] && !(|a.children| == 1 && a.children[0].Text?) {
      r := r.(staticRoot := true);
      NoBranchesOfStatic(a, p);
      forall i | 0 <= i < |a.children| ensures RootsMarked(m.children[i], a.children[i], Below(a, p)) {
        NoRootsBelow(m.children[i], a.children[i], Inside(a, p), Below(a, p));
      }
      return;
    }
    var children: seq<Flagged> := [];
    for i := 0 to |a.children|
      invariant |children| == i && forall k | 0 <= k < i :: RootsMarked(children[k], a.children[k], Below(a, p))
    {
      assert Below(a, p) == Inside(a, p);
      var child := MarkStaticRoots(a.children[i], m.children[i], Below(a, p));
      children := children + [child];
    }
    var blocks := MarkBlockRoots(a.otherwise, m.blocks, Beside(a, p));
    r := r.(children := children, blocks := blocks);
  }

  method MarkBlockRoots(bs: Branches, ms: seq<Flagged>, p: Place) returns (rs: seq<Flagged>)
    requires ParsedBranches(bs) && BlocksMarked(ms, bs, p) && !p.belowRoot
    ensures BlockRootsMarked(rs, bs, p)
    decreases bs, 0
  {
    if bs.NoMore? {
      return [];
    }
    var block := MarkStaticRoots(bs.block, ms[0], p);
    var rest := MarkBlockRoots(bs.rest, ms[1..], p);
    return [block] + rest;
  }

  /** `optimize`: both passes from the root. */
  method Optimize(ast: Ast, isReservedTag: string -> bool) returns (m: Flagged)
    requires Parsed(ast)
    ensures RootsMarked(m, ast, Place(isReservedTag, false, false, true, false))
  {
    var p := Place(isReservedTag, false, false, true, false);
    var marked := MarkStatic(ast, p);
    m := MarkStaticRoots(ast, marked, p);
  }

  // ------------------------------------------------------------ getNormalizationType

  method SomeBlock(bs: Branches, p: Place) returns (needs: bool, maybe: bool)
    ensures needs == BranchesNeed(bs) && maybe == BranchesMaybe(bs, p)
  {
    needs, maybe := false, false;
    var rest := bs;
    while rest.Branch?
      invariant BranchesNeed(bs) == (needs || BranchesNeed(rest))
      invariant BranchesMaybe(bs, p) == (maybe || BranchesMaybe(rest, p))
      decreases rest
    {
      needs := needs || NeedsNormalization(rest.block);
      maybe := maybe || MaybeComponent(rest.block, p);
      rest := rest.rest;
    }
  }

  /** `getNormalizationType`: a child that needs full normalization ends the search. */
  method GetNormalizationType(children: seq<Ast>, p: Place) returns (res: nat)
    ensures res == NormalizationType(children, p) && res <= 2
    ensures res == 2 <==> exists c | c in children :: SomeWraps(c)
    ensures res >= 1 <==> exists c | c in children :: SomeWraps(c) || SomeComponent(c, p)
  {
    NormalizationExactly(children, p);
    res := 0;
    for i := 0 to |children|
      invariant res < 2
      invariant NormalizationType(children, p) ==
        if NormalizationType(children[i..], p) == 2 then 2 else if res == 1 then 1 else NormalizationType(children[i..], p)
    {
      var el := children[i];
      assert children[i..][0] == el && children[i..][1..] == children[i + 1..];
      if !el.Element? {
        continue;
      }
      var needs, maybe := false, false;
      if el.ifExp.Some? {
        needs, maybe := SomeBlock(el.otherwise, p);
      }
      if NeedsNormalization(el) || needs {
        res := 2;
        break;
      }
      if MaybeComponent(el, p) || maybe {
        res := 1;
      }
    }
  }
}
