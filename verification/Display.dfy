/** The document a reader sees, without node identities: what `createElm` builds
    from a virtual tree, and that patching ends in the same place. */
module Display {
  import opened Dom
  import opened VNodes
  import opened Mirror
  import opened Matching
  import opened Patch

  datatype DomTree = DomTree(kind: Kind, data: string, kids: seq<DomTree>)

  ghost predicate Shows(h: Heap, id: Id, t: DomTree)
    decreases t
  {
    && id in h && h[id].kind == t.kind && h[id].data == t.data
    && |h[id].kids| == |t.kids|
    && forall i :: 0 <= i < |t.kids| ==> Shows(h, h[id].kids[i], t.kids[i])
  }

  /** Building from scratch. */
  function Built(v: VNode): DomTree
    decreases v, 1
  {
    if v.tag.None? then
      DomTree(if v.isComment then Comment else Text, if v.text.Some? then v.text.value else "undefined", [])
    else
      DomTree(Element(v.tag.value), "",
        match v.children
        case Present(vs) => BuiltAll(vs)
        case Absent => if v.text.Some? then [DomTree(Text, v.text.value, [])] else [])
  }

  function BuiltAll(vs: seq<VNode>): (r: seq<DomTree>)
    ensures |r| == |vs|
    ensures forall i :: 0 <= i < |vs| ==> r[i] == Built(vs[i])
    decreases vs, 0
  {
    if vs == [] then [] else [Built(vs[0])] + BuiltAll(vs[1..])
  }

  /** The tree without text nodes that hold no text. */
  function Visible(t: DomTree): DomTree
    decreases t, 1
  {
    t.(kids := VisibleAll(t.kids))
  }

  function VisibleAll(ts: seq<DomTree>): seq<DomTree>
    decreases ts, 0
  {
    if ts == [] then []
    else if ts[0].kind.Text? && ts[0].data == "" then VisibleAll(ts[1..])
    else [Visible(ts[0])] + VisibleAll(ts[1..])
  }

  /** The tree that the document shows for a live node. */
  function TreeAt(l: Live): DomTree
    decreases l, 1
  {
    var built := Built(l.vnode);
    if l.vnode.tag.None? then built
    else if l.vnode.children.Present? then built.(kids := TreesAt(l.kids))
    else if l.bare then built.(kids := [])
    else built
  }

  function TreesAt(ls: seq<Live>): (r: seq<DomTree>)
    ensures |r| == |ls|
    ensures forall i :: 0 <= i < |ls| ==> r[i] == TreeAt(ls[i])
    decreases ls, 0
  {
    if ls == [] then [] else [TreeAt(ls[0])] + TreesAt(ls[1..])
  }

  /** No element was given the empty string for its text. */
  predicate NoEmptyText(v: VNode) {
    && (v.tag.Some? && v.children.Absent? ==> v.text != Some(""))
    && (v.children.Present? ==> forall c | c in v.children.list :: NoEmptyText(c))
  }

  lemma {:induction false} ShowsTreeAt(h: Heap, l: Live)
    requires Mirrors(h, l)
    ensures Shows(h, l.elm, TreeAt(l))
    decreases l
  {
    if l.vnode.tag.Some? && l.vnode.children.Present? {
      forall i | 0 <= i < |l.kids| ensures Shows(h, l.kids[i].elm, TreeAt(l.kids[i])) {
        ShowsTreeAt(h, l.kids[i]);
      }
    }
  }

  lemma {:induction false} ShowsOnlyOne(h: Heap, id: Id, t: DomTree, t': DomTree)
    requires Shows(h, id, t) && Shows(h, id, t')
    ensures t == t'
    decreases t
  {
    forall i | 0 <= i < |t.kids| ensures t.kids[i] == t'.kids[i] {
      ShowsOnlyOne(h, h[id].kids[i], t.kids[i], t'.kids[i]);
    }
    assert t.kids == t'.kids;
  }

  lemma {:induction false} VisibleTreeAt(h: Heap, l: Live)
    requires Mirrors(h, l)
    ensures Visible(TreeAt(l)) == Visible(Built(l.vnode))
    ensures TreeAt(l).kind == Built(l.vnode).kind && TreeAt(l).data == Built(l.vnode).data
    ensures TreeAt(l) == Built(l.vnode) <==> Full(l)
    decreases l, 1
  {
    if l.vnode.tag.Some? && l.vnode.children.Present? {
      VisibleTreesAt(h, l.kids, l.vnode.children.list);
    } else if l.vnode.tag.Some? && l.vnode.text.Some? {
      var leaf := DomTree(Text, l.vnode.text.value, []);
      assert VisibleAll([leaf]) == (if leaf.data == "" then [] else [Visible(leaf)]) by {
        assert [leaf][1..] == [];
      }
    }
  }

  lemma {:induction false} VisibleTreesAt(h: Heap, ls: seq<Live>, vs: seq<VNode>)
    requires forall l | l in ls :: Mirrors(h, l)
    requires Aligned(ls, vs)
    ensures VisibleAll(TreesAt(ls)) == VisibleAll(BuiltAll(vs))
    ensures TreesAt(ls) == BuiltAll(vs) <==> forall l | l in ls :: Full(l)
    decreases ls, 0
  {
    if ls != [] {
      assert ls[0] in ls && vs[0] in vs;
      VisibleTreeAt(h, ls[0]);
      VisibleTreesAt(h, ls[1..], vs[1..]);
    }
  }

  /** Whatever way a part of the document came to show a virtual tree, by building or by
      patching, a reader sees what building from scratch would show. The document is exactly the
      built one if and only if no element lacks a text node for its empty text. */
  lemma MirrorsShowsBuilt(h: Heap, l: Live, t: DomTree)
    requires Mirrors(h, l) && Shows(h, l.elm, t)
    ensures Visible(t) == Visible(Built(l.vnode))
    ensures t == Built(l.vnode) <==> Full(l)
  {
    ShowsTreeAt(h, l);
    ShowsOnlyOne(h, l.elm, t, TreeAt(l));
    VisibleTreeAt(h, l);
  }

  /** Without empty element texts patching leaves exactly the built document. */
  lemma {:induction false} NoEmptyTextIsFull(o: Live, v: VNode)
    requires NoEmptyText(v)
    ensures FullAfter(o, v)
    decreases v
  {
    if v.tag.Some? && v.children.Present? && o.vnode.children.Present? {
      var vs := v.children.list;
      var pairs := AllPartners(o.kids, vs);
      forall i | i in pairs ensures FullAfter(o.kids[pairs[i]], vs[i]) {
        assert vs[i] in vs;
        NoEmptyTextIsFull(o.kids[pairs[i]], vs[i]);
      }
    }
  }

  /** An element whose text becomes the empty one, or that had children before, does not get
      the text node that building gives it. */
  lemma EmptiedTextIsNotFull(o: Live, v: VNode)
    requires v.tag.Some? && v.children.Absent? && v.text == Some("") && o.vnode.text != Some("")
    ensures !FullAfter(o, v)
  {
  }

  /** Patching a tree and building the new one beside it: a reader sees the same, and the
      documents are equal exactly if the patcher leaves no element with the empty text bare,
      which old tree and new tree decide. */
  method PatchThenBuild(doc: Document, o: Live, v: VNode) returns (patched: Live, built: Live)
    requires doc.Valid() && Mirrors(doc.nodes, o) && Patchable(v) && SameVnode(o.vnode, v)
    modifies doc
    ensures patched.elm == o.elm && built.elm != patched.elm
    ensures forall t, t' :: Shows(doc.nodes, patched.elm, t) && Shows(doc.nodes, built.elm, t') ==>
      Visible(t) == Visible(t') && (t == t' <==> FullAfter(o, v))
    ensures exists t :: Shows(doc.nodes, patched.elm, t)
    ensures Shows(doc.nodes, built.elm, Built(v))
  {
    hide Shows, Mirrors, Full, FullAfter, Foot, Visible;
    patched := PatchVnode(doc, o, v);
    ghost var h := doc.nodes;
    MirrorsElm(h, patched);
    built := CreateElm(doc, v, None, None);
    FootInHeap(h, patched);
    InFoot(doc.nodes, built);
    MirrorsFrame(h, doc.nodes, patched);
    forall t, t' | Shows(doc.nodes, patched.elm, t) && Shows(doc.nodes, built.elm, t')
      ensures Visible(t) == Visible(t') && (t == t' <==> FullAfter(o, v))
    {
      MirrorsShowsBuilt(doc.nodes, patched, t);
      MirrorsShowsBuilt(doc.nodes, built, t');
    }
    ShowsTreeAt(doc.nodes, patched);
    ShowsTreeAt(doc.nodes, built);
    MirrorsShowsBuilt(doc.nodes, built, TreeAt(built));
  }
}
