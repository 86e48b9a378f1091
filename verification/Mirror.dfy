/** What it means for a part of the document to show a virtual tree, and how
    that survives edits elsewhere in the document. */
module Mirror {
  import opened Dom
  import opened VNodes

  /** A virtual node together with the document node in its `elm` field; `bare` says of an
      element with the empty text that the document has no text node for it. */
  datatype Live = Live(vnode: VNode, elm: Id, kids: seq<Live>, bare: bool)

  /** No element at or below it lacks a text node for its empty text. */
  predicate Full(l: Live) {
    (l.vnode.tag.Some? && l.vnode.children.Absent? && l.vnode.text == Some("") ==> !l.bare) &&
    (l.vnode.children.Present? ==> forall k | k in l.kids :: Full(k))
  }

  function Elms(ls: seq<Live>): (r: seq<Id>)
    ensures |r| == |ls|
    ensures forall i :: 0 <= i < |ls| ==> r[i] == ls[i].elm
  {
    seq(|ls|, i requires 0 <= i < |ls| => ls[i].elm)
  }

  ghost function KidSet(h: Heap, id: Id): set<Id> {
    if id in h then set k | k in h[id].kids else {}
  }

  /** All document nodes at or below the live node. */
  ghost function Foot(h: Heap, l: Live): set<Id>
    decreases l, 1
  {
    {l.elm} + KidSet(h, l.elm) + FootAll(h, l.kids)
  }

  ghost function FootAll(h: Heap, ls: seq<Live>): set<Id>
    decreases ls, 0
  {
    if ls == [] then {} else Foot(h, ls[0]) + FootAll(h, ls[1..])
  }

  /** The document children of an element that was given text instead of
      children; setting empty text leaves no text node behind. */
  ghost predicate ShowsText(h: Heap, elm: Id, text: Option<string>, bare: bool)
    requires elm in h
  {
    var kids := h[elm].kids;
    match text
    case None => kids == []
    case Some(t) =>
      if bare then t == "" && kids == []
      else (|kids| == 1 && kids[0] != elm && kids[0] in h && h[kids[0]] == Node(Text, t, [], Some(elm)))
  }

  /** The document subtree at `l.elm` shows `l.vnode`. */
  ghost predicate Mirrors(h: Heap, l: Live)
    decreases l, 1
  {
    && l.elm in h
    && Plain(l.vnode)
    && match l.vnode.tag {
         case None =>
           && l.kids == [] && h[l.elm].kids == []
           && h[l.elm].kind == (if l.vnode.isComment then Comment else Text)
           && h[l.elm].data == l.vnode.text.value
         case Some(tag) =>
           && h[l.elm].kind == Element(tag) && h[l.elm].data == ""
           && (l.vnode.children.Absent? ==> l.kids == [] && ShowsText(h, l.elm, l.vnode.text, l.bare))
           && (l.vnode.children.Present? ==>
                 Forest(h, l.elm, l.kids) && Aligned(l.kids, l.vnode.children.list))
       }
  }

  ghost predicate Aligned(ls: seq<Live>, vs: seq<VNode>) {
    |ls| == |vs| && forall i :: 0 <= i < |ls| ==> ls[i].vnode == vs[i]
  }

  /** The children of `p` in the document are exactly the elements of `ls`, in
      order, each showing its virtual node in a part of the document of its own. */
  ghost predicate Forest(h: Heap, p: Id, ls: seq<Live>)
    decreases ls, 0
  {
    && p in h
    && h[p].kids == Elms(ls)
    && (forall i :: 0 <= i < |ls| ==>
          Mirrors(h, ls[i]) && h[ls[i].elm].parent == Some(p) && p !in Foot(h, ls[i]))
    && Apart(h, ls)
  }

  ghost predicate Apart(h: Heap, ls: seq<Live>) {
    forall i, j :: 0 <= i < j < |ls| ==> Foot(h, ls[i]) !! Foot(h, ls[j])
  }

  lemma {:induction false} FootAllIn(h: Heap, ls: seq<Live>, i: nat)
    requires i < |ls|
    ensures Foot(h, ls[i]) <= FootAll(h, ls)
  {
    if i > 0 {
      FootAllIn(h, ls[1..], i - 1);
    }
  }

  lemma {:induction false} FootAllFrom(h: Heap, ls: seq<Live>, id: Id) returns (i: nat)
    requires id in FootAll(h, ls)
    ensures i < |ls| && id in Foot(h, ls[i])
  {
    if id in Foot(h, ls[0]) {
      i := 0;
    } else {
      var j := FootAllFrom(h, ls[1..], id);
      i := j + 1;
    }
  }

  lemma {:induction false} FootAllBound(h: Heap, ls: seq<Live>, s: set<Id>)
    requires forall i :: 0 <= i < |ls| ==> Foot(h, ls[i]) <= s
    ensures FootAll(h, ls) <= s
  {
    forall id | id in FootAll(h, ls) ensures id in s {
      var i := FootAllFrom(h, ls, id);
    }
  }

  lemma ForestDistinct(h: Heap, p: Id, ls: seq<Live>)
    requires Forest(h, p, ls)
    ensures Distinct(Elms(ls)) && p !in Elms(ls)
  {
    forall i, j | 0 <= i < j < |ls| ensures ls[i].elm != ls[j].elm {
      assert ls[i].elm in Foot(h, ls[i]) && ls[j].elm in Foot(h, ls[j]);
    }
    forall i | 0 <= i < |ls| ensures ls[i].elm != p {
      assert ls[i].elm in Foot(h, ls[i]);
    }
  }

  /** A live node's footprint lies inside the document. */
  lemma {:induction false} FootInHeap(h: Heap, l: Live)
    requires Mirrors(h, l)
    ensures Foot(h, l) <= h.Keys
    decreases l
  {
    if l.kids != [] {
      forall i | 0 <= i < |l.kids| ensures Foot(h, l.kids[i]) <= h.Keys {
        FootInHeap(h, l.kids[i]);
      }
      FootAllBound(h, l.kids, h.Keys);
    }
    if l.vnode.children.Present? {
      forall k | k in h[l.elm].kids ensures k in h {
        var i :| 0 <= i < |l.kids| && l.kids[i].elm == k;
      }
    }
  }

  /** The two heaps hold the same nodes at and below `l`, up to the parent of `l` itself. */
  ghost predicate SameBelow(h: Heap, h': Heap, l: Live) {
    && l.elm in h && l.elm in h'
    && h'[l.elm].(parent := None) == h[l.elm].(parent := None)
    && forall id :: id in Foot(h, l) && id != l.elm && id in h ==> id in h' && h'[id] == h[id]
  }

  lemma {:induction false} SameBelowKid(h: Heap, h': Heap, l: Live, i: nat)
    requires Mirrors(h, l) && SameBelow(h, h', l)
    requires i < |l.kids|
    ensures Mirrors(h, l.kids[i]) && SameBelow(h, h', l.kids[i])
    ensures h'[l.kids[i].elm] == h[l.kids[i].elm]
    ensures l.elm !in Foot(h, l.kids[i])
  {
    FootAllIn(h, l.kids, i);
    FootInHeap(h, l.kids[i]);
    assert l.kids[i].elm in Foot(h, l.kids[i]);
  }

  /** A live node keeps showing its virtual node when nothing at or below it changes. */
  lemma {:induction false} MirrorsFrame(h: Heap, h': Heap, l: Live)
    requires Mirrors(h, l) && SameBelow(h, h', l)
    ensures Mirrors(h', l) && Foot(h', l) == Foot(h, l)
    decreases l
  {
    forall i | 0 <= i < |l.kids|
      ensures Mirrors(h', l.kids[i]) && Foot(h', l.kids[i]) == Foot(h, l.kids[i])
      ensures l.kids[i].elm in h && l.kids[i].elm in h' && h'[l.kids[i].elm] == h[l.kids[i].elm]
      ensures l.elm !in Foot(h, l.kids[i])
    {
      SameBelowKid(h, h', l, i);
      MirrorsFrame(h, h', l.kids[i]);
    }
    FootAllSame(h, h', l.kids);
    if l.vnode.tag.Some? && l.vnode.children.Absent? && h[l.elm].kids != [] {
      assert h[l.elm].kids[0] in KidSet(h, l.elm);
    }
  }

  lemma {:induction false} FootAllSame(h: Heap, h': Heap, ls: seq<Live>)
    requires forall i :: 0 <= i < |ls| ==> Foot(h', ls[i]) == Foot(h, ls[i])
    ensures FootAll(h', ls) == FootAll(h, ls)
  {
    if ls != [] {
      FootAllSame(h, h', ls[1..]);
    }
  }

  /** Only nodes in `s` differ between the heaps, and none disappears. */
  ghost predicate Frame(h: Heap, h': Heap, s: set<Id>) {
    forall id :: id in h ==> id in h' && (id !in s ==> h'[id] == h[id])
  }

  lemma {:induction false} FootAllConcat(h: Heap, a: seq<Live>, b: seq<Live>)
    ensures FootAll(h, a + b) == FootAll(h, a) + FootAll(h, b)
  {
    if a == [] {
      assert a + b == b;
    } else {
      assert (a + b)[1..] == a[1..] + b;
      FootAllConcat(h, a[1..], b);
    }
  }

  lemma {:induction false} FootAllApart(h: Heap, a: seq<Live>, b: seq<Live>)
    requires forall i, j :: 0 <= i < |a| && 0 <= j < |b| ==> Foot(h, a[i]) !! Foot(h, b[j])
    ensures FootAll(h, a) !! FootAll(h, b)
  {
    forall id | id in FootAll(h, a) ensures id !in FootAll(h, b) {
      var i := FootAllFrom(h, a, id);
      if id in FootAll(h, b) {
        var j := FootAllFrom(h, b, id);
        assert false;
      }
    }
  }

  lemma {:induction false} ApartConcat(h: Heap, a: seq<Live>, b: seq<Live>)
    ensures Apart(h, a + b) <==> Apart(h, a) && Apart(h, b) && FootAll(h, a) !! FootAll(h, b)
  {
    if Apart(h, a + b) {
      assert forall i :: 0 <= i < |a| ==> a[i] == (a + b)[i];
      assert forall i :: 0 <= i < |b| ==> b[i] == (a + b)[|a| + i];
      forall i, j | 0 <= i < |a| && 0 <= j < |b| ensures Foot(h, a[i]) !! Foot(h, b[j]) {
        assert Foot(h, (a + b)[i]) !! Foot(h, (a + b)[|a| + j]);
      }
      FootAllApart(h, a, b);
    }
    if Apart(h, a) && Apart(h, b) && FootAll(h, a) !! FootAll(h, b) {
      forall i, j | 0 <= i < j < |a + b| ensures Foot(h, (a + b)[i]) !! Foot(h, (a + b)[j]) {
        if i < |a| && |a| <= j {
          FootAllIn(h, a, i);
          FootAllIn(h, b, j - |a|);
        }
      }
    }
  }

  /** The children of `p` that show their virtual nodes, whatever else `p` holds. */
  ghost predicate Planted(h: Heap, p: Id, ls: seq<Live>) {
    && p in h
    && (forall i :: 0 <= i < |ls| ==>
          Mirrors(h, ls[i]) && h[ls[i].elm].parent == Some(p) && p !in Foot(h, ls[i]))
  }

  lemma {:induction false} PlantedFrame(h: Heap, h': Heap, p: Id, ls: seq<Live>)
    requires Planted(h, p, ls) && p in h'
    requires forall id :: id in FootAll(h, ls) && id in h ==> id in h' && h'[id] == h[id]
    ensures Planted(h', p, ls) && FootAll(h', ls) == FootAll(h, ls)
    ensures Apart(h, ls) ==> Apart(h', ls)
  {
    forall i | 0 <= i < |ls|
      ensures Mirrors(h', ls[i]) && Foot(h', ls[i]) == Foot(h, ls[i])
      ensures h'[ls[i].elm] == h[ls[i].elm]
    {
      FootAllIn(h, ls, i);
      assert ls[i].elm in Foot(h, ls[i]);
      MirrorsFrame(h, h', ls[i]);
    }
    FootAllSame(h, h', ls);
  }

  lemma ElmsConcat(a: seq<Live>, b: seq<Live>)
    ensures Elms(a + b) == Elms(a) + Elms(b)
  {
  }

  lemma {:induction false} ElmsInFoot(h: Heap, ls: seq<Live>)
    ensures forall i :: 0 <= i < |ls| ==> ls[i].elm in FootAll(h, ls)
  {
    forall i | 0 <= i < |ls| ensures ls[i].elm in FootAll(h, ls) {
      FootAllIn(h, ls, i);
      assert ls[i].elm in Foot(h, ls[i]);
    }
  }

  lemma FootAllOne(h: Heap, l: Live)
    ensures FootAll(h, [l]) == Foot(h, l)
  {
  }

  /** What a forest says when one child is looked at on its own. */
  lemma {:induction false} ForestSplit(h: Heap, p: Id, a: seq<Live>, l: Live, b: seq<Live>)
    requires Forest(h, p, a + [l] + b)
    ensures Planted(h, p, a) && Planted(h, p, [l]) && Planted(h, p, b)
    ensures Mirrors(h, l) && l.elm in h && l.elm != p && h[l.elm].parent == Some(p)
    ensures Apart(h, a) && Apart(h, b)
    ensures FootAll(h, a) !! Foot(h, l) && FootAll(h, a) !! FootAll(h, b) && Foot(h, l) !! FootAll(h, b)
    ensures p !in FootAll(h, a) && p !in Foot(h, l) && p !in FootAll(h, b)
    ensures h[p].kids == Elms(a) + [l.elm] + Elms(b)
    ensures FootAll(h, a + [l] + b) == FootAll(h, a) + Foot(h, l) + FootAll(h, b)
  {
    hide Mirrors;
    hide Foot;
    hide FootAll;
    ForestSplitTwo(h, p, a + [l], b);
    PlantedConcat(h, p, a, [l]);
    ApartConcat(h, a, [l]);
    FootAllConcat(h, a, [l]);
    FootAllOne(h, l);
    ElmsConcat(a, [l]);
    assert Elms([l]) == [l.elm];
    assert [l][0] == l;
    PlantedAway(h, p, a);
    InFoot(h, l);
    MirrorsElm(h, l);
  }

  lemma PlantedConcat(h: Heap, p: Id, a: seq<Live>, b: seq<Live>)
    requires Planted(h, p, a + b)
    ensures Planted(h, p, a) && Planted(h, p, b)
  {
    hide Mirrors;
    hide Foot;
    assert forall i :: 0 <= i < |a| ==> a[i] == (a + b)[i];
    assert forall i :: 0 <= i < |b| ==> b[i] == (a + b)[|a| + i];
  }

  lemma MirrorsElm(h: Heap, l: Live)
    requires Mirrors(h, l)
    ensures l.elm in h
  {
  }

  lemma InFoot(h: Heap, l: Live)
    ensures l.elm in Foot(h, l)
  {
  }

  lemma {:induction false} PlantedAway(h: Heap, p: Id, ls: seq<Live>)
    requires Planted(h, p, ls)
    ensures p !in FootAll(h, ls)
  {
    if p in FootAll(h, ls) {
      var i := FootAllFrom(h, ls, p);
    }
  }

  lemma {:induction false} ForestJoin(h: Heap, p: Id, a: seq<Live>, l: Live, b: seq<Live>)
    requires Planted(h, p, a) && Planted(h, p, b)
    requires Mirrors(h, l) && h[l.elm].parent == Some(p) && p !in Foot(h, l)
    requires Apart(h, a) && Apart(h, b)
    requires FootAll(h, a) !! Foot(h, l) && FootAll(h, a) !! FootAll(h, b) && Foot(h, l) !! FootAll(h, b)
    requires h[p].kids == Elms(a) + [l.elm] + Elms(b)
    ensures Forest(h, p, a + [l] + b)
    ensures FootAll(h, a + [l] + b) == FootAll(h, a) + Foot(h, l) + FootAll(h, b)
  {
    hide Foot;
    hide FootAll;
    hide Mirrors;
    ElmsConcat(a + [l], b);
    ElmsConcat(a, [l]);
    FootAllConcat(h, a + [l], b);
    FootAllConcat(h, a, [l]);
    FootAllOne(h, l);
    ApartConcat(h, a + [l], b);
    ApartConcat(h, a, [l]);
  }

  lemma {:induction false} ForestJoinTwo(h: Heap, p: Id, a: seq<Live>, b: seq<Live>)
    requires Planted(h, p, a) && Planted(h, p, b)
    requires Apart(h, a) && Apart(h, b) && FootAll(h, a) !! FootAll(h, b)
    requires h[p].kids == Elms(a) + Elms(b)
    ensures Forest(h, p, a + b)
    ensures FootAll(h, a + b) == FootAll(h, a) + FootAll(h, b)
  {
    hide Mirrors;
    ElmsConcat(a, b);
    FootAllConcat(h, a, b);
    ApartConcat(h, a, b);
  }

  lemma {:induction false} ForestSplitTwo(h: Heap, p: Id, a: seq<Live>, b: seq<Live>)
    requires Forest(h, p, a + b)
    ensures Planted(h, p, a) && Planted(h, p, b)
    ensures Apart(h, a) && Apart(h, b) && FootAll(h, a) !! FootAll(h, b)
    ensures h[p].kids == Elms(a) + Elms(b)
    ensures FootAll(h, a + b) == FootAll(h, a) + FootAll(h, b)
    ensures p !in FootAll(h, a) && p !in FootAll(h, b)
  {
    hide Mirrors;
    PlantedConcat(h, p, a, b);
    ElmsConcat(a, b);
    FootAllConcat(h, a, b);
    ApartConcat(h, a, b);
    PlantedAway(h, p, a);
    PlantedAway(h, p, b);
  }

  /** Replacing one child by a live node that shows something else at the same
      element, in the same part of the document or in new nodes. */
  lemma {:induction false} ForestReplace(h: Heap, h': Heap, p: Id, a: seq<Live>, l: Live, b: seq<Live>, l': Live)
    requires Forest(h, p, a + [l] + b)
    requires Mirrors(h', l') && l'.elm == l.elm
    requires Frame(h, h', Foot(h, l))
    requires Foot(h', l') * h.Keys <= Foot(h, l)
    requires l.elm in h && h'[l.elm].parent == h[l.elm].parent
    ensures Forest(h', p, a + [l'] + b)
    ensures FootAll(h', a + [l'] + b) == FootAll(h, a) + Foot(h', l') + FootAll(h, b)
    ensures FootAll(h', a + [l'] + b) * h.Keys <= FootAll(h, a + [l] + b)
  {
    hide Mirrors;
    ForestSplit(h, p, a, l, b);
    FootAllInHeap(h, p, a);
    FootAllInHeap(h, p, b);
    PlantedFrame(h, h', p, a);
    PlantedFrame(h, h', p, b);
    ForestJoin(h', p, a, l', b);
  }

  lemma {:induction false} FootAllInHeap(h: Heap, p: Id, ls: seq<Live>)
    requires Planted(h, p, ls)
    ensures FootAll(h, ls) <= h.Keys
  {
    forall i | 0 <= i < |ls| ensures Foot(h, ls[i]) <= h.Keys {
      FootInHeap(h, ls[i]);
    }
    FootAllBound(h, ls, h.Keys);
  }

  lemma DetachedKid(h: Heap, p: Id, x: seq<Id>, n: Id, y: seq<Id>)
    requires p in h && n in h && p != n
    requires h[p].kids == x + [n] + y && Distinct(h[p].kids)
    requires h[n].parent == Some(p)
    ensures Detached(h, n) == h[p := h[p].(kids := x + y)][n := h[n].(parent := None)]
  {
    assert h[p].kids[|x|] == n;
    WithoutAt(h[p].kids, |x|);
    assert h[p].kids[..|x|] + h[p].kids[|x| + 1..] == x + y;
  }

  /** Taking one child out. */
  lemma {:induction false} ForestRemove(h: Heap, p: Id, a: seq<Live>, l: Live, b: seq<Live>)
    requires Forest(h, p, a + [l] + b)
    ensures l.elm in h && p in h && l.elm != p
    ensures
      var h' := Detached(h, l.elm);
      && Forest(h', p, a + b)
      && Mirrors(h', l) && p !in Foot(h', l)
      && Foot(h', l) == Foot(h, l)
      && FootAll(h', a) == FootAll(h, a) && FootAll(h', b) == FootAll(h, b)
      && FootAll(h', a + b) == FootAll(h, a) + FootAll(h, b)
      && Frame(h, h', {p, l.elm})
      && h'[p] == h[p].(kids := h'[p].kids)
      && h'[l.elm] == h[l.elm].(parent := None)
  {
    hide Mirrors;
    ForestDistinct(h, p, a + [l] + b);
    ForestSplit(h, p, a, l, b);
    assert l.elm in Foot(h, l);
    DetachedKid(h, p, Elms(a), l.elm, Elms(b));
    var h' := Detached(h, l.elm);
    assert h'[p].kids == Elms(a) + Elms(b);
    PlantedFrame(h, h', p, a);
    PlantedFrame(h, h', p, b);
    MirrorsFrame(h, h', l);
    ForestJoinTwo(h', p, a, b);
  }

  /** Putting a live node with a part of the document of its own among the children. */
  lemma {:induction false} ForestInsert(h: Heap, p: Id, a: seq<Live>, l: Live, b: seq<Live>, ref: Option<Id>)
    requires Forest(h, p, a + b)
    requires ref == if b != [] then Some(b[0].elm) else None
    requires Mirrors(h, l) && l.elm in h && h[l.elm].parent == None && p !in Foot(h, l)
    requires FootAll(h, a + b) !! Foot(h, l)
    ensures p != l.elm && p in h
    ensures
      var h' := Attached(h, p, l.elm, ref);
      && Forest(h', p, a + [l] + b)
      && FootAll(h', a) == FootAll(h, a) && FootAll(h', b) == FootAll(h, b)
      && Foot(h', l) == Foot(h, l)
      && FootAll(h', a + [l] + b) == FootAll(h, a) + Foot(h, l) + FootAll(h, b)
      && Frame(h, h', {p, l.elm})
      && h'[p] == h[p].(kids := h'[p].kids)
      && h'[l.elm] == h[l.elm].(parent := Some(p))
  {
    hide Mirrors;
    assert l.elm in Foot(h, l);
    var h' := Attached(h, p, l.elm, ref);
    ForestSplitTwo(h, p, a, b);
    ForestDistinct(h, p, a + b);
    ElmsConcat(a, b);
    BeforeInList(Elms(a), l.elm, Elms(b), ref);
    assert h'[p].kids == Elms(a) + [l.elm] + Elms(b);
    MirrorsFrame(h, h', l);
    PlantedFrame(h, h', p, a);
    PlantedFrame(h, h', p, b);
    ForestJoin(h', p, a, l, b);
  }

  /** `h'` is `h` with new nodes, of which `elm` was handed to `insert`. */
  ghost predicate Grafted(h: Heap, h': Heap, parent: Option<Id>, ref: Option<Id>, elm: Id) {
    && elm in h' && elm !in h
    && (forall id :: id in h ==> id in h' && (parent != Some(id) ==> h'[id] == h[id]))
    && match parent {
         case None => h'[elm].parent == None
         case Some(p) =>
           p in h ==>
             if ref.Some? && ref.value in h && h[ref.value].parent != parent then
               h'[p] == h[p] && h'[elm].parent == None
             else
               h'[p] == h[p].(kids := Before(h[p].kids, elm, ref)) && h'[elm].parent == parent
       }
  }

  lemma BeforeInList(a: seq<Id>, x: Id, b: seq<Id>, ref: Option<Id>)
    requires Distinct(a + b)
    requires ref == if b != [] then Some(b[0]) else None
    ensures Before(a + b, x, ref) == a + [x] + b
  {
    if b != [] {
      assert (a + b)[|a|] == b[0];
      BeforeAt(a + b, x, |a|);
      assert (a + b)[..|a|] == a && (a + b)[|a|..] == b;
    } else {
      assert a + b == a && a + [x] + b == a + [x];
    }
  }

  /** Creating a live node among the children. */
  lemma {:induction false} ForestGraft(h: Heap, h': Heap, p: Id, a: seq<Live>, l: Live, b: seq<Live>, ref: Option<Id>)
    requires Forest(h, p, a + b)
    requires ref == if b != [] then Some(b[0].elm) else None
    requires Mirrors(h', l) && Foot(h', l) !! h.Keys
    requires Grafted(h, h', Some(p), ref, l.elm)
    ensures Forest(h', p, a + [l] + b)
    ensures FootAll(h', a + [l] + b) == FootAll(h, a + b) + Foot(h', l)
    ensures h'[p] == h[p].(kids := h'[p].kids)
    ensures Frame(h, h', {p})
  {
    hide Mirrors;
    hide Foot;
    ForestSplitTwo(h, p, a, b);
    ForestDistinct(h, p, a + b);
    ElmsConcat(a, b);
    BeforeInList(Elms(a), l.elm, Elms(b), ref);
    RefInPlace(h, p, a, b);
    assert h'[p].kids == Elms(a) + [l.elm] + Elms(b);
    FootAllInHeap(h, p, a);
    FootAllInHeap(h, p, b);
    PlantedFrame(h, h', p, a);
    PlantedFrame(h, h', p, b);
    ForestJoin(h', p, a, l, b);
  }

  lemma RefInPlace(h: Heap, p: Id, a: seq<Live>, b: seq<Live>)
    requires Forest(h, p, a + b)
    ensures b != [] ==> b[0].elm in h && h[b[0].elm].parent == Some(p)
  {
    hide Foot;
    if b != [] {
      assert (a + b)[|a|] == b[0];
    }
  }

  lemma {:induction false} ElementOverForest(h: Heap, l: Live)
    requires l.elm in h && Plain(l.vnode) && l.vnode.tag.Some? && l.vnode.children.Present?
    requires h[l.elm].kind == Element(l.vnode.tag.value) && h[l.elm].data == ""
    requires Forest(h, l.elm, l.kids) && Aligned(l.kids, l.vnode.children.list)
    ensures Mirrors(h, l) && Foot(h, l) == {l.elm} + FootAll(h, l.kids)
  {
    ElmsInFoot(h, l.kids);
    forall k | k in h[l.elm].kids ensures k in FootAll(h, l.kids) {
      var i :| 0 <= i < |l.kids| && l.kids[i].elm == k;
    }
  }

  lemma {:induction false} ElementUnderForest(h: Heap, l: Live)
    requires Mirrors(h, l) && l.vnode.children.Present?
    ensures l.elm in h && l.vnode.tag.Some?
    ensures h[l.elm].kind == Element(l.vnode.tag.value) && h[l.elm].data == ""
    ensures Forest(h, l.elm, l.kids) && Aligned(l.kids, l.vnode.children.list)
    ensures Foot(h, l) == {l.elm} + FootAll(h, l.kids)
  {
    ElementOverForest(h, l);
  }

  /** How far an update of the children of `p` has come: they show `ls` now, and
      only `p`'s child list and the nodes in `s` have been touched. */
  ghost predicate Progress(h0: Heap, h: Heap, p: Id, s: set<Id>, ls: seq<Live>) {
    && p in h0
    && Forest(h, p, ls)
    && Frame(h0, h, s + {p})
    && h[p] == h0[p].(kids := h[p].kids)
    && FootAll(h, ls) * h0.Keys <= s
  }

  lemma ProgressKeys(h0: Heap, h: Heap, p: Id, s: set<Id>, ls: seq<Live>)
    requires Progress(h0, h, p, s, ls)
    ensures h0.Keys <= h.Keys
  {
  }

  lemma {:induction false} ProgressReplace(
    h0: Heap, h: Heap, h': Heap, p: Id, s: set<Id>, a: seq<Live>, l: Live, b: seq<Live>, l': Live)
    requires Progress(h0, h, p, s, a + [l] + b)
    requires Mirrors(h', l') && l'.elm == l.elm
    requires Frame(h, h', Foot(h, l)) && Foot(h', l') * h.Keys <= Foot(h, l)
    requires l.elm in h && h'[l.elm].parent == h[l.elm].parent
    ensures Progress(h0, h', p, s, a + [l'] + b)
  {
    hide Mirrors;
    hide Foot;
    hide Forest;
    ForestSplit(h, p, a, l, b);
    ForestReplace(h, h', p, a, l, b, l');
  }

  lemma {:induction false} ProgressGraft(
    h0: Heap, h: Heap, h': Heap, p: Id, s: set<Id>, a: seq<Live>, l: Live, b: seq<Live>, ref: Option<Id>)
    requires Progress(h0, h, p, s, a + b)
    requires ref == if b != [] then Some(b[0].elm) else None
    requires Mirrors(h', l) && Foot(h', l) !! h.Keys
    requires Grafted(h, h', Some(p), ref, l.elm)
    ensures Progress(h0, h', p, s, a + [l] + b)
  {
    hide Mirrors;
    hide Foot;
    hide Forest;
    ForestGraft(h, h', p, a, l, b, ref);
  }

  lemma {:induction false} ProgressRemove(
    h0: Heap, h: Heap, p: Id, s: set<Id>, a: seq<Live>, l: Live, b: seq<Live>)
    requires Progress(h0, h, p, s, a + [l] + b)
    requires l.elm in s
    ensures l.elm in h && l.elm != p
    ensures Progress(h0, Detached(h, l.elm), p, s, a + b)
    ensures Detached(h, l.elm)[l.elm].parent == None
    ensures forall id :: id in h && h[id].parent == None ==> Detached(h, l.elm)[id].parent == None
  {
    hide Mirrors;
    hide Forest;
    ForestSplit(h, p, a, l, b);
    ForestRemove(h, p, a, l, b);
  }

  /** Moving a child: it leaves its place and goes in front of `ref`. */
  lemma {:induction false} ProgressMove(
    h0: Heap, h: Heap, p: Id, s: set<Id>,
    a: seq<Live>, l: Live, b: seq<Live>, a': seq<Live>, b': seq<Live>, ref: Option<Id>)
    requires Progress(h0, h, p, s, a + [l] + b)
    requires l.elm in s && a + b == a' + b'
    requires ref == if b' != [] then Some(b'[0].elm) else None
    ensures l.elm in h && p in h && l.elm != p && ref != Some(l.elm)
    ensures Progress(h0, Attached(Detached(h, l.elm), p, l.elm, ref), p, s, a' + [l] + b')
  {
    hide Mirrors;
    hide Forest;
    hide Foot;
    ForestSplit(h, p, a, l, b);
    ForestRemove(h, p, a, l, b);
    var h1 := Detached(h, l.elm);
    ForestInsert(h1, p, a', l, b', ref);
    ForestSplitTwo(h1, p, a', b');
    FootAllConcat(h1, a', b');
    if b' != [] {
      ElmsInFoot(h1, b');
    }
  }

  lemma NoForest(h: Heap, p: Id)
    requires p in h && h[p].kids == []
    ensures Forest(h, p, []) && Progress(h, h, p, {}, [] + [])
  {
  }
}
