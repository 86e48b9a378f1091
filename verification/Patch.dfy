/** The patcher of `frontend/js/vue.js`: building document nodes from virtual
    ones and editing the document so that it shows a new virtual tree. */
module Patch {
  import opened Dom
  import opened VNodes
  import opened Mirror
  import opened Matching

  /** `insert`: nothing happens without a parent, or when `ref` has left that parent. */
  method Insert(doc: Document, parent: Option<Id>, elm: Id, ref: Option<Id>)
    requires doc.Valid() && elm in doc.nodes && doc.nodes[elm].parent == None
    requires parent.Some? ==> parent.value in doc.nodes && parent.value != elm
    requires ref.Some? ==> ref.value in doc.nodes && ref.value != elm
    modifies doc
    ensures doc.Valid()
    ensures
      if parent.None? || (ref.Some? && old(doc.nodes)[ref.value].parent != parent) then
        doc.nodes == old(doc.nodes)
      else
        doc.nodes == Attached(old(doc.nodes), parent.value, elm, ref)
  {
    if parent.Some? {
      if ref.Some? {
        if doc.nodes[ref.value].parent == parent {
          doc.InsertBefore(parent.value, elm, ref);
        }
      } else {
        doc.AppendChild(parent.value, elm);
      }
    }
  }

  method CreateElm(doc: Document, v: VNode, parent: Option<Id>, ref: Option<Id>) returns (l: Live)
    requires doc.Valid() && Plain(v)
    requires parent.Some? ==> parent.value in doc.nodes
    requires ref.Some? ==> ref.value in doc.nodes
    modifies doc
    ensures doc.Valid() && l.vnode == v
    ensures Mirrors(doc.nodes, l)
    ensures Foot(doc.nodes, l) !! old(doc.nodes).Keys
    ensures Grafted(old(doc.nodes), doc.nodes, parent, ref, l.elm) && Full(l)
    ensures l.elm in doc.nodes && doc.nodes[l.elm].kind ==
      (if v.tag.Some? then Element(v.tag.value) else if v.isComment then Comment else Text)
    decreases v, 1
  {
    ghost var h0 := doc.nodes;
    if v.tag.Some? {
      var elm := doc.CreateElement(v.tag.value);
      ghost var h1 := doc.nodes;
      var kids := CreateChildren(doc, elm, v);
      l := Live(v, elm, kids, false);
      hide Mirrors, Foot, Plain;
      OnlyNew(Foot(doc.nodes, l), h1.Keys, h0.Keys, elm);
      InsertCreated(doc, parent, l, ref, h0);
    } else {
      l := CreateLeaf(doc, v);
      hide Mirrors, Foot;
      InsertCreated(doc, parent, l, ref, h0);
    }
  }

  lemma OnlyNew(foot: set<Id>, some: set<Id>, before: set<Id>, elm: Id)
    requires foot * some == {elm} && before <= some && elm !in before
    ensures foot !! before
  {
    assert forall id :: id in foot && id in before ==> id in foot * some;
    assert forall id :: id in foot * some ==> id == elm;
  }

  /** Inserting what was created since `h0` leaves it as it is. */
  method InsertCreated(doc: Document, parent: Option<Id>, l: Live, ref: Option<Id>, ghost h0: Heap)
    requires doc.Valid() && Mirrors(doc.nodes, l) && Foot(doc.nodes, l) !! h0.Keys
    requires (parent.Some? ==> parent.value in h0) && (ref.Some? ==> ref.value in h0)
    requires forall id :: id in h0 ==> id in doc.nodes && doc.nodes[id] == h0[id]
    requires l.elm in doc.nodes && l.elm !in h0 && doc.nodes[l.elm].parent == None
    modifies doc
    ensures doc.Valid() && Mirrors(doc.nodes, l) && Foot(doc.nodes, l) !! h0.Keys
    ensures Grafted(h0, doc.nodes, parent, ref, l.elm)
  {
    ghost var h1 := doc.nodes;
    Insert(doc, parent, l.elm, ref);
    assert parent.Some? ==> parent.value !in Foot(h1, l);
    MirrorsFrame(h1, doc.nodes, l);
  }

  method CreateLeaf(doc: Document, v: VNode) returns (l: Live)
    requires doc.Valid() && Plain(v) && v.tag.None?
    modifies doc
    ensures doc.Valid() && l == Live(v, l.elm, [], false) && l.elm !in old(doc.nodes)
    ensures doc.nodes.Keys == old(doc.nodes).Keys + {l.elm} && doc.nodes[l.elm].parent == None
    ensures forall id :: id in old(doc.nodes) ==> doc.nodes[id] == old(doc.nodes)[id]
    ensures Mirrors(doc.nodes, l) && Foot(doc.nodes, l) == {l.elm}
  {
    var elm;
    if v.isComment {
      elm := doc.CreateComment(v.text.value);
    } else {
      elm := doc.CreateTextNode(v.text.value);
    }
    l := Live(v, elm, [], false);
  }

  method CreateChildren(doc: Document, elm: Id, v: VNode) returns (kids: seq<Live>)
    requires doc.Valid() && elm in doc.nodes && Plain(v) && v.tag.Some?
    requires doc.nodes[elm] == Node(Element(v.tag.value), "", [], None)
    modifies doc
    ensures doc.Valid()
    ensures Mirrors(doc.nodes, Live(v, elm, kids, false))
    ensures Foot(doc.nodes, Live(v, elm, kids, false)) * old(doc.nodes).Keys == {elm}
    ensures Frame(old(doc.nodes), doc.nodes, {elm})
    ensures doc.nodes[elm] == old(doc.nodes)[elm].(kids := doc.nodes[elm].kids)
    ensures forall k | k in kids :: Full(k)
    decreases v, 0
  {
    if v.children.Present? {
      hide Foot;
      hide Mirrors;
      hide Forest;
      NoForest(doc.nodes, elm);
      ghost var h0 := doc.nodes;
      kids := AddVnodes(doc, elm, None, v.children.list, 0, |v.children.list| - 1, h0, {}, [], []);
      assert [] + kids + [] == kids;
      ElementOverForest(doc.nodes, Live(v, elm, kids, false));
    } else {
      kids := [];
      if v.text.Some? {
        var t := doc.CreateTextNode(v.text.value);
        doc.AppendChild(elm, t);
      }
    }
  }

  /** `addVnodes`, and the loop of `createChildren`: new nodes for
      `vnodes[startIdx..endIdx + 1]`, put between the
      children that show `a` and those that show `b`. */
  method AddVnodes(doc: Document, p: Id, ref: Option<Id>, vnodes: seq<VNode>, startIdx: int, endIdx: int,
                   ghost h0: Heap, ghost s: set<Id>, ghost a: seq<Live>, ghost b: seq<Live>)
    returns (ls: seq<Live>)
    requires doc.Valid() && Progress(h0, doc.nodes, p, s, a + b)
    requires 0 <= startIdx <= endIdx + 1 <= |vnodes|
    requires forall v | v in vnodes :: Plain(v)
    requires ref == if b != [] then Some(b[0].elm) else None
    modifies doc
    ensures doc.Valid() && Progress(h0, doc.nodes, p, s, a + ls + b)
    ensures Aligned(ls, vnodes[startIdx..endIdx + 1]) && forall l | l in ls :: l.elm !in h0 && Full(l)
    decreases vnodes, 0
  {
    hide Mirrors;
    hide Foot;
    hide Forest;
    ls := [];
    assert a + [] + b == a + b;
    for i := startIdx to endIdx + 1
      invariant doc.Valid() && Progress(h0, doc.nodes, p, s, a + ls + b)
      invariant Aligned(ls, vnodes[startIdx..i]) && forall l | l in ls :: l.elm !in h0 && Full(l)
    {
      RefInPlace(doc.nodes, p, a + ls, b);
      ProgressKeys(h0, doc.nodes, p, s, a + ls + b);
      ghost var h := doc.nodes;
      var l := CreateElm(doc, vnodes[i], Some(p), ref);
      ProgressGraft(h0, h, doc.nodes, p, s, a + ls, l, b, ref);
      assert a + ls + [l] + b == a + (ls + [l]) + b;
      ls := ls + [l];
    }
  }

  // ---------------------------------------------------------------- updateChildren

  /** The old children that have not been moved away. */
  function Somes(s: seq<Option<Live>>): seq<Live> {
    if s == [] then []
    else if s[0].None? then Somes(s[1..])
    else [s[0].value] + Somes(s[1..])
  }

  lemma {:induction false} SomesConcat(a: seq<Option<Live>>, b: seq<Option<Live>>)
    ensures Somes(a + b) == Somes(a) + Somes(b)
  {
    if a == [] {
      assert a + b == b;
    } else {
      SomesConcat(a[1..], b);
      assert (a + b)[0] == a[0] && (a + b)[1..] == a[1..] + b;
      if a[0].Some? {
        assert [a[0].value] + (Somes(a[1..]) + Somes(b)) == ([a[0].value] + Somes(a[1..])) + Somes(b);
      }
    }
  }

  lemma SomesAt(a: seq<Option<Live>>, l: Live, b: seq<Option<Live>>)
    ensures Somes(a + ([Some(l)] + b)) == Somes(a) + [l] + Somes(b)
  {
    SomesConcat(a, [Some(l)] + b);
    SomesConcat([Some(l)], b);
    assert Somes([Some(l)]) == [l];
  }

  lemma SomesLast(a: seq<Option<Live>>, l: Live)
    ensures Somes(a + [Some(l)]) == Somes(a) + [l]
  {
    SomesConcat(a, [Some(l)]);
    var one := [Some(l)];
    assert one[1..] == [];
    assert Somes(one) == [l] + Somes(one[1..]) == [l];
  }

  lemma SomesNone(a: seq<Option<Live>>, b: seq<Option<Live>>)
    ensures Somes(a + ([None] + b)) == Somes(a) + Somes(b)
  {
    SomesConcat(a, [None] + b);
    assert ([None] + b)[1..] == b;
  }

  lemma {:induction false} SomesAll(ls: seq<Live>)
    ensures Somes(seq(|ls|, i requires 0 <= i < |ls| => Some(ls[i]))) == ls
  {
    if ls != [] {
      var s := seq(|ls|, i requires 0 <= i < |ls| => Some(ls[i]));
      SomesAll(ls[1..]);
      assert s[1..] == seq(|ls[1..]|, i requires 0 <= i < |ls[1..]| => Some(ls[1..][i]));
    }
  }

  /** `createKeyToOldIdx`: a later child with the same key name wins. */
  method CreateKeyToOldIdx(children: seq<Option<Live>>, beginIdx: int, endIdx: int) returns (m: map<string, int>)
    requires 0 <= beginIdx <= endIdx + 1 <= |children|
    requires forall i :: beginIdx <= i <= endIdx ==> children[i].Some?
    ensures forall k :: k in m ==>
      beginIdx <= m[k] <= endIdx && children[m[k]].value.vnode.key.Some? &&
      children[m[k]].value.vnode.key.value.name == k
    ensures forall i :: beginIdx <= i <= endIdx && children[i].value.vnode.key.Some? ==>
      children[i].value.vnode.key.value.name in m && i <= m[children[i].value.vnode.key.value.name]
    ensures m == KeyIndex(children, beginIdx, endIdx)
  {
    m := map[];
    for i := beginIdx to endIdx + 1
      invariant m == KeyIndex(children, beginIdx, i - 1)
      invariant forall k :: k in m ==>
        beginIdx <= m[k] < i && children[m[k]].value.vnode.key.Some? &&
        children[m[k]].value.vnode.key.value.name == k
      invariant forall j :: beginIdx <= j < i && children[j].value.vnode.key.Some? ==>
        children[j].value.vnode.key.value.name in m && j <= m[children[j].value.vnode.key.value.name]
    {
      var key := children[i].value.vnode.key;
      if key.Some? {
        m := m[key.value.name := i];
      }
    }
  }

  /** `findIdxInOld`, which never looks at the slot `end`. */
  method FindIdxInOld(node: VNode, oldCh: seq<Option<Live>>, start: int, end: int) returns (idx: Option<int>)
    requires 0 <= start <= end < |oldCh|
    ensures idx.Some? ==> start <= idx.value < end && oldCh[idx.value].Some?
    ensures idx.Some? ==> SameVnode(node, oldCh[idx.value].value.vnode)
    ensures forall i :: start <= i < (if idx.Some? then idx.value else end) && oldCh[i].Some? ==>
      !SameVnode(node, oldCh[i].value.vnode)
    ensures idx == FirstSame(node, oldCh, start, end)
  {
    for i := start to end
      invariant FirstSame(node, oldCh, i, end) == FirstSame(node, oldCh, start, end)
      invariant forall j :: start <= j < i && oldCh[j].Some? ==> !SameVnode(node, oldCh[j].value.vnode)
    {
      if oldCh[i].Some? && SameVnode(node, oldCh[i].value.vnode) {
        return Some(i);
      }
    }
    return None;
  }

  /** `removeVnodes`: the children that are still there leave the document. */
  method RemoveVnodes(doc: Document, vnodes: seq<Option<Live>>, startIdx: int, endIdx: int,
                      ghost h0: Heap, ghost p: Id, ghost s: set<Id>, ghost a: seq<Live>, ghost b: seq<Live>)
    requires 0 <= startIdx <= endIdx + 1 <= |vnodes|
    requires doc.Valid()
    requires Progress(h0, doc.nodes, p, s, a + Somes(vnodes[startIdx..endIdx + 1]) + b)
    requires forall l :: Some(l) in vnodes ==> l.elm in s
    modifies doc
    ensures doc.Valid() && Progress(h0, doc.nodes, p, s, a + b)
    ensures forall i :: startIdx <= i <= endIdx && vnodes[i].Some? ==>
      vnodes[i].value.elm in doc.nodes && doc.nodes[vnodes[i].value.elm].parent == None
  {
    hide Mirrors;
    hide Foot;
    hide Progress;
    for i := startIdx to endIdx + 1
      invariant doc.Valid() && Progress(h0, doc.nodes, p, s, a + Somes(vnodes[i..endIdx + 1]) + b)
      invariant forall j :: startIdx <= j < i && vnodes[j].Some? ==>
        vnodes[j].value.elm in doc.nodes && doc.nodes[vnodes[j].value.elm].parent == None
    {
      var ch := vnodes[i];
      assert vnodes[i..endIdx + 1] == [ch] + vnodes[i + 1..endIdx + 1];
      SomesConcat([ch], vnodes[i + 1..endIdx + 1]);
      if ch.Some? {
        var rest := Somes(vnodes[i + 1..endIdx + 1]);
        assert Somes([ch]) == [ch.value];
        assert a + ([ch.value] + rest) + b == a + [ch.value] + (rest + b);
        ProgressRemove(h0, doc.nodes, p, s, a, ch.value, rest + b);
        doc.RemoveNode(ch.value.elm);
        assert a + (rest + b) == a + rest + b;
      }
    }
    assert a + [] + b == a + b;
  }

  /** The local variables of `updateChildren`: the old children, with the ones moved
      away undefined, the four indices, and the live nodes finished at either end. */
  datatype Cursor = Cursor(
    oldCh: seq<Option<Live>>, oldStart: int, oldEnd: int, newStart: int, newEnd: int,
    left: seq<Live>, right: seq<Live>)
  {
    predicate InRange() {
      0 <= oldStart <= oldEnd + 1 <= |oldCh| && 0 <= newStart <= newEnd + 1
    }

    function Waiting(): seq<Live>
      requires InRange()
    {
      Somes(oldCh[oldStart..oldEnd + 1])
    }

    /** What the parent's children show at this point. */
    function Shown(): seq<Live>
      requires InRange()
    {
      left + Waiting() + right
    }

    predicate IsWaiting(k: int) {
      oldStart <= k <= oldEnd && 0 <= k < |oldCh| && oldCh[k].Some?
    }

    function BeforeSlot(k: int): seq<Live>
      requires InRange() && IsWaiting(k)
    {
      Somes(oldCh[oldStart..k])
    }

    function AfterSlot(k: int): seq<Live>
      requires InRange() && IsWaiting(k)
    {
      Somes(oldCh[k + 1..oldEnd + 1])
    }
  }

  lemma WaitingAt(c: Cursor, k: int)
    requires c.InRange() && c.IsWaiting(k)
    ensures c.Waiting() == c.BeforeSlot(k) + [c.oldCh[k].value] + c.AfterSlot(k)
  {
    hide Somes;
    SomesAt(c.oldCh[c.oldStart..k], c.oldCh[k].value, c.oldCh[k + 1..c.oldEnd + 1]);
    SliceAt(c.oldCh, c.oldStart, k, c.oldEnd + 1);
  }

  lemma SliceAt(s: seq<Option<Live>>, from: int, k: int, to: int)
    requires 0 <= from <= k < to <= |s|
    ensures s[from..to] == s[from..k] + ([s[k]] + s[k + 1..to])
  {
  }

  /** The partners of the new children that the walk has yet to come to. */
  function Ahead(newCh: seq<VNode>, c: Cursor, index: Option<map<string, int>>): map<int, int>
    requires InRange(c.oldCh, newCh, c.oldStart, c.oldEnd, c.newStart, c.newEnd)
  {
    Partners(c.oldCh, newCh, c.oldStart, c.oldEnd, c.newStart, c.newEnd, index)
  }

  /** The new child has the element of its partner, and below it keys keep their elements, or
      it has been created. */
  ghost predicate Settled(h0: Heap, old0: seq<Live>, newCh: seq<VNode>, pairs: map<int, int>, i: int, l: Live)
    requires 0 <= i < |newCh|
  {
    if i in pairs then
      0 <= pairs[i] < |old0| && l.elm == old0[pairs[i]].elm && (Full(l) <==> FullAfter(old0[pairs[i]], newCh[i])) &&
      (UniqueKeys(old0[pairs[i]].vnode) ==> Reused(old0[pairs[i]], l))
    else Full(l) && l.elm !in h0
  }

  ghost predicate AllSettled(h0: Heap, old0: seq<Live>, newCh: seq<VNode>, pairs: map<int, int>, from: int, ls: seq<Live>) {
    0 <= from && from + |ls| <= |newCh| && forall i | 0 <= i < |ls| :: Settled(h0, old0, newCh, pairs, from + i, ls[i])
  }

  /** The walk keeps to these partners. */
  ghost predicate Follows(h0: Heap, old0: seq<Live>, newCh: seq<VNode>, pairs: map<int, int>, c: Cursor, index: Option<map<string, int>>) {
    && InRange(c.oldCh, newCh, c.oldStart, c.oldEnd, c.newStart, c.newEnd)
    && |c.left| == c.newStart && |c.right| == |newCh| - c.newEnd - 1
    && AllSettled(h0, old0, newCh, pairs, 0, c.left) && AllSettled(h0, old0, newCh, pairs, c.newEnd + 1, c.right)
    && Agrees(pairs, Ahead(newCh, c, index), c.newStart, c.newEnd)
  }

  predicate Agrees(pairs: map<int, int>, ahead: map<int, int>, from: int, to: int) {
    forall i | from <= i <= to :: (i in pairs <==> i in ahead) && (i in ahead ==> pairs[i] == ahead[i])
  }

  lemma SettledMore(h0: Heap, old0: seq<Live>, newCh: seq<VNode>, pairs: map<int, int>, from: int, ls: seq<Live>, l: Live, front: bool)
    requires AllSettled(h0, old0, newCh, pairs, from, ls)
    requires var i := if front then from + |ls| else from - 1; 0 <= i < |newCh| && Settled(h0, old0, newCh, pairs, i, l)
    ensures if front then AllSettled(h0, old0, newCh, pairs, from, ls + [l]) else AllSettled(h0, old0, newCh, pairs, from - 1, [l] + ls)
  {
    hide Settled;
    if !front {
      forall i | 0 <= i < |[l] + ls| ensures Settled(h0, old0, newCh, pairs, from - 1 + i, ([l] + ls)[i]) {
        assert i > 0 ==> ([l] + ls)[i] == ls[i - 1] && Settled(h0, old0, newCh, pairs, from + (i - 1), ls[i - 1]);
      }
    }
  }

  /** The first or the last of the new children left over has been patched or created. */
  lemma FollowsPlaced(h0: Heap, old0: seq<Live>, newCh: seq<VNode>, pairs: map<int, int>, c: Cursor, index: Option<map<string, int>>,
                      k: Option<int>, l: Live, front: bool, c': Cursor, index': Option<map<string, int>>)
    requires Follows(h0, old0, newCh, pairs, c, index) && c.newStart <= c.newEnd
    requires InRange(c'.oldCh, newCh, c'.oldStart, c'.oldEnd, c'.newStart, c'.newEnd)
    requires if front
             then c'.left == c.left + [l] && c'.right == c.right && c'.newStart == c.newStart + 1 && c'.newEnd == c.newEnd
             else c'.left == c.left && c'.right == [l] + c.right && c'.newStart == c.newStart && c'.newEnd == c.newEnd - 1
    requires var i := if front then c.newStart else c.newEnd;
             match k
             case None => Ahead(newCh, c, index) == Ahead(newCh, c', index') && Full(l) && l.elm !in h0
             case Some(j) =>
               Ahead(newCh, c, index) == Ahead(newCh, c', index')[i := j] &&
               0 <= j < |old0| && l.elm == old0[j].elm && (Full(l) <==> FullAfter(old0[j], newCh[i])) &&
               (UniqueKeys(old0[j].vnode) ==> Reused(old0[j], l))
    ensures Follows(h0, old0, newCh, pairs, c', index')
  {
    hide Full, FullAfter, Reused, Partners, AllSettled;
    var i := if front then c.newStart else c.newEnd;
    assert i !in Ahead(newCh, c', index');
    assert Settled(h0, old0, newCh, pairs, i, l);
    SettledMore(h0, old0, newCh, pairs, if front then 0 else c.newEnd + 1, if front then c.left else c.right, l, front);
  }

  lemma FollowsSkip(h0: Heap, old0: seq<Live>, newCh: seq<VNode>, pairs: map<int, int>, c: Cursor, index: Option<map<string, int>>, c': Cursor)
    requires Follows(h0, old0, newCh, pairs, c, index) && c.oldStart <= c.oldEnd && c.newStart <= c.newEnd
    requires if c.oldCh[c.oldStart].None? then c' == c.(oldStart := c.oldStart + 1)
             else c.oldCh[c.oldEnd].None? && c' == c.(oldEnd := c.oldEnd - 1)
    ensures Follows(h0, old0, newCh, pairs, c', index)
  {
    hide Full, FullAfter, Reused, AllSettled;
  }

  /** What the comparisons of the ends decide. */
  lemma EndPartners(newCh: seq<VNode>, c: Cursor, index: Option<map<string, int>>)
    requires InRange(c.oldCh, newCh, c.oldStart, c.oldEnd, c.newStart, c.newEnd)
    requires c.oldStart <= c.oldEnd && c.newStart <= c.newEnd && c.oldCh[c.oldStart].Some? && c.oldCh[c.oldEnd].Some?
    ensures var ahead := Ahead(newCh, c, index);
            var first, last := c.oldCh[c.oldStart].value.vnode, c.oldCh[c.oldEnd].value.vnode;
            if SameVnode(first, newCh[c.newStart]) then
              ahead == Ahead(newCh, c.(oldStart := c.oldStart + 1, newStart := c.newStart + 1), index)[c.newStart := c.oldStart]
            else if SameVnode(last, newCh[c.newEnd]) then
              ahead == Ahead(newCh, c.(oldEnd := c.oldEnd - 1, newEnd := c.newEnd - 1), index)[c.newEnd := c.oldEnd]
            else if SameVnode(first, newCh[c.newEnd]) then
              ahead == Ahead(newCh, c.(oldStart := c.oldStart + 1, newEnd := c.newEnd - 1), index)[c.newEnd := c.oldStart]
            else if SameVnode(last, newCh[c.newStart]) then
              ahead == Ahead(newCh, c.(oldEnd := c.oldEnd - 1, newStart := c.newStart + 1), index)[c.newStart := c.oldEnd]
            else
              var found := IndexFor(c.oldCh, c.oldStart, c.oldEnd, index);
              var k := Candidate(c.oldCh, newCh[c.newStart], c.oldStart, c.oldEnd, found);
              if k.Some? && Fits(c.oldCh, k.value, newCh[c.newStart]) then
                ahead == Ahead(newCh, c.(oldCh := c.oldCh[k.value := None], newStart := c.newStart + 1), Some(found))
                           [c.newStart := k.value]
              else ahead == Ahead(newCh, c.(newStart := c.newStart + 1), Some(found))
  {
    hide SameVnode, IndexFor, Candidate;
  }

  /** Each node was made by this update, or is the element of an old child that
      `sameVnode` accepts for it. */
  ghost predicate Reuses(h0: Heap, old0: seq<Live>, ls: seq<Live>) {
    forall l | l in ls ::
      l.elm !in h0 || exists o | o in old0 :: o.elm == l.elm && SameVnode(o.vnode, l.vnode)
  }

  ghost predicate Kept(old0: seq<Live>, ls: seq<Live>) {
    forall o | o in old0 :: o.elm in Elms(ls)
  }

  ghost predicate UsedUp(newCh: seq<VNode>, c: Cursor, key: Option<Key>) {
    exists i :: 0 <= i < |newCh| && (i < c.newStart || c.newEnd < i) && newCh[i].key == key
  }

  /** What `updateChildren` knows besides the state of the document. */
  ghost predicate Book(h0: Heap, old0: seq<Live>, newCh: seq<VNode>, c: Cursor) {
    && c.InRange() && |c.oldCh| == |old0| && c.newEnd < |newCh|
    && (forall j :: 0 <= j < |old0| && c.oldCh[j].Some? ==> c.oldCh[j].value == old0[j])
    && Aligned(c.left, newCh[..c.newStart]) && Aligned(c.right, newCh[c.newEnd + 1..])
    && Reuses(h0, old0, c.left) && Reuses(h0, old0, c.right)
    && (forall j :: 0 <= j < |old0| && !c.IsWaiting(j) ==> UsedUp(newCh, c, old0[j].vnode.key))
    && Kept(old0, c.Shown())
  }

  ghost predicate IndexOk(old0: seq<Live>, m: map<string, int>) {
    forall k :: k in m ==>
      0 <= m[k] < |old0| && old0[m[k]].vnode.key.Some? && old0[m[k]].vnode.key.value.name == k
  }

  /** The key index never yields a slot that has been consumed already. */
  lemma IndexedSlotIsWaiting(h0: Heap, old0: seq<Live>, newCh: seq<VNode>, c: Cursor, m: map<string, int>)
    requires Book(h0, old0, newCh, c) && IndexOk(old0, m) && UniqueNames(newCh)
    requires c.newStart <= c.newEnd && newCh[c.newStart].key.Some?
    requires newCh[c.newStart].key.value.name in m
    ensures c.IsWaiting(m[newCh[c.newStart].key.value.name])
  {
    var j := m[newCh[c.newStart].key.value.name];
    assert c.IsWaiting(j) || UsedUp(newCh, c, old0[j].vnode.key);
  }

  /** The cursor after slot `k` became the live node `l` at the front or the back. */
  ghost predicate Consumes(c: Cursor, k: int, l: Live, front: bool, c': Cursor) {
    && c'.InRange() && |c'.oldCh| == |c.oldCh|
    && (forall j :: c'.IsWaiting(j) <==> c.IsWaiting(j) && j != k)
    && (forall j :: 0 <= j < |c.oldCh| && c'.oldCh[j].Some? ==> c'.oldCh[j] == c.oldCh[j])
    && (if front then
          c'.left == c.left + [l] && c'.right == c.right &&
          c'.newStart == c.newStart + 1 && c'.newEnd == c.newEnd
        else
          c'.left == c.left && c'.right == [l] + c.right &&
          c'.newStart == c.newStart && c'.newEnd == c.newEnd - 1)
  }

  lemma ReusesMore(h0: Heap, old0: seq<Live>, ls: seq<Live>, o: Live, l: Live, front: bool)
    requires Reuses(h0, old0, ls) && o in old0 && o.elm == l.elm && SameVnode(o.vnode, l.vnode)
    ensures Reuses(h0, old0, if front then ls + [l] else [l] + ls)
  {
  }

  lemma {:induction false} BookConsumes(
    h0: Heap, old0: seq<Live>, newCh: seq<VNode>, c: Cursor, k: int, l: Live, front: bool, c': Cursor)
    requires Book(h0, old0, newCh, c) && c.IsWaiting(k) && c.newStart <= c.newEnd
    requires Consumes(c, k, l, front, c')
    requires l.vnode == newCh[if front then c.newStart else c.newEnd]
    requires l.elm == old0[k].elm && SameVnode(old0[k].vnode, l.vnode)
    requires forall x :: x in Elms(c.Shown()) ==> x in Elms(c'.Shown())
    ensures Book(h0, old0, newCh, c')
  {
    hide Reuses, Aligned, UsedUp, Kept, Somes, Elms, SameVnode;
    assert old0[k] in old0;
    ReusesMore(h0, old0, if front then c.left else c.right, old0[k], l, front);
    AlignedMore(newCh, c, l, front, c');
    UsedUpMore(old0, newCh, c, k, l, front, c');
    KeptBy(old0, c.Shown(), c'.Shown());
  }

  lemma KeptBy(old0: seq<Live>, ls: seq<Live>, ls': seq<Live>)
    requires Kept(old0, ls) && forall x :: x in Elms(ls) ==> x in Elms(ls')
    ensures Kept(old0, ls')
  {
  }

  lemma AlignedMore(newCh: seq<VNode>, c: Cursor, l: Live, front: bool, c': Cursor)
    requires 0 <= c.newStart <= c.newEnd < |newCh|
    requires Aligned(c.left, newCh[..c.newStart]) && Aligned(c.right, newCh[c.newEnd + 1..])
    requires l.vnode == newCh[if front then c.newStart else c.newEnd]
    requires if front
             then c'.left == c.left + [l] && c'.right == c.right && c'.newStart == c.newStart + 1 && c'.newEnd == c.newEnd
             else c'.left == c.left && c'.right == [l] + c.right && c'.newStart == c.newStart && c'.newEnd == c.newEnd - 1
    ensures Aligned(c'.left, newCh[..c'.newStart]) && Aligned(c'.right, newCh[c'.newEnd + 1..])
  {
  }

  lemma UsedUpMore(old0: seq<Live>, newCh: seq<VNode>, c: Cursor, k: int, l: Live, front: bool, c': Cursor)
    requires c.IsWaiting(k) && |c.oldCh| == |old0| && 0 <= c.newStart <= c.newEnd < |newCh|
    requires forall j :: 0 <= j < |old0| && !c.IsWaiting(j) ==> UsedUp(newCh, c, old0[j].vnode.key)
    requires Consumes(c, k, l, front, c')
    requires l.vnode == newCh[if front then c.newStart else c.newEnd] && SameVnode(old0[k].vnode, l.vnode)
    ensures forall j :: 0 <= j < |old0| && !c'.IsWaiting(j) ==> UsedUp(newCh, c', old0[j].vnode.key)
  {
    var i := if front then c.newStart else c.newEnd;
    forall j | 0 <= j < |old0| && !c'.IsWaiting(j) ensures UsedUp(newCh, c', old0[j].vnode.key) {
      if j == k {
        assert newCh[i].key == old0[k].vnode.key;
      } else {
        assert UsedUp(newCh, c, old0[j].vnode.key);
      }
    }
  }

  /** The waiting slots without slot `k`. */
  function Others(c: Cursor, k: int): seq<Live>
    requires c.InRange() && c.IsWaiting(k)
  {
    c.BeforeSlot(k) + c.AfterSlot(k)
  }

  lemma ShownAt(c: Cursor, k: int)
    requires c.InRange() && c.IsWaiting(k)
    ensures c.Shown() == (c.left + c.BeforeSlot(k)) + [c.oldCh[k].value] + (c.AfterSlot(k) + c.right)
  {
    WaitingAt(c, k);
  }

  lemma ShownAfter(c: Cursor, k: int, l: Live, front: bool, c': Cursor)
    requires c.InRange() && c.IsWaiting(k) && Consumes(c, k, l, front, c')
    requires c'.Waiting() == Others(c, k) && l.elm == c.oldCh[k].value.elm
    ensures front ==> c'.Shown() == c.left + [l] + (Others(c, k) + c.right)
    ensures !front ==> c'.Shown() == (c.left + Others(c, k)) + [l] + c.right
    ensures forall x :: x in Elms(c.Shown()) ==> x in Elms(c'.Shown())
  {
    hide Somes, Elms;
    ShownAt(c, k);
    var x := c.oldCh[k].value;
    var a, b := c.left + c.BeforeSlot(k), c.AfterSlot(k) + c.right;
    if front {
      assert c'.Shown() == c.left + [l] + (Others(c, k) + c.right);
      ElmsMoved(a, x, b, c.left, l, Others(c, k) + c.right);
    } else {
      assert c'.Shown() == (c.left + Others(c, k)) + [l] + c.right;
      ElmsMoved(a, x, b, c.left + Others(c, k), l, c.right);
    }
  }

  lemma ElmsMoved(a: seq<Live>, x: Live, b: seq<Live>, a': seq<Live>, l: Live, b': seq<Live>)
    requires a + b == a' + b' && l.elm == x.elm
    ensures forall e :: e in Elms(a + [x] + b) ==> e in Elms(a' + [l] + b')
  {
    forall e | e in Elms(a + [x] + b) ensures e in Elms(a' + [l] + b') {
      var i :| 0 <= i < |a + [x] + b| && (a + [x] + b)[i].elm == e;
      if i == |a| {
        assert (a' + [l] + b')[|a'|] == l;
      } else {
        var j := if i < |a| then i else i - 1;
        assert (a + [x] + b)[i] == (a + b)[j] == (a' + b')[j];
        assert (a' + [l] + b')[if j < |a'| then j else j + 1] == (a' + b')[j];
      }
    }
  }

  /** The state of `updateChildren` between two turns of its loop. */
  ghost predicate Turn(h0: Heap, h: Heap, p: Id, s: set<Id>, old0: seq<Live>, newCh: seq<VNode>, c: Cursor) {
    && Book(h0, old0, newCh, c)
    && Progress(h0, h, p, s, c.Shown())
    && (forall o | o in old0 :: o.elm in s && o.elm in h0)
  }

  lemma BookRange(h0: Heap, old0: seq<Live>, newCh: seq<VNode>, c: Cursor)
    requires Book(h0, old0, newCh, c)
    ensures c.InRange() && |c.oldCh| == |old0| && c.newEnd < |newCh|
    ensures forall j :: 0 <= j < |old0| && c.oldCh[j].Some? ==> c.oldCh[j].value == old0[j]
  {
  }

  lemma TurnBook(h0: Heap, h: Heap, p: Id, s: set<Id>, old0: seq<Live>, newCh: seq<VNode>, c: Cursor)
    requires Turn(h0, h, p, s, old0, newCh, c)
    ensures Book(h0, old0, newCh, c) && Progress(h0, h, p, s, c.Shown())
    ensures c.InRange() && |c.oldCh| == |old0| && c.newEnd < |newCh|
    ensures |c.left| == c.newStart && |c.right| == |newCh| - c.newEnd - 1
    ensures forall j :: 0 <= j < |old0| && c.oldCh[j].Some? ==>
      c.oldCh[j].value == old0[j] && old0[j].elm in s
  {
  }

  /** Stepping over slots that have been moved away, and finishing new nodes at the front. */
  lemma BookStep(h0: Heap, old0: seq<Live>, newCh: seq<VNode>, c: Cursor, c': Cursor)
    requires Book(h0, old0, newCh, c)
    requires c'.InRange() && c'.oldCh == c.oldCh && c'.right == c.right && c'.newEnd == c.newEnd
    requires forall j :: 0 <= j < |old0| ==> (c'.IsWaiting(j) <==> c.IsWaiting(j))
    requires c.newStart <= c'.newStart
    requires Aligned(c'.left, newCh[..c'.newStart]) && Reuses(h0, old0, c'.left)
    requires Kept(old0, c'.Shown())
    ensures Book(h0, old0, newCh, c')
  {
    hide Reuses;
    hide Aligned;
    hide Kept;
    forall j | 0 <= j < |old0| && !c'.IsWaiting(j) ensures UsedUp(newCh, c', old0[j].vnode.key) {
      assert UsedUp(newCh, c, old0[j].vnode.key);
    }
  }

  lemma SkipFirst(h0: Heap, h: Heap, p: Id, s: set<Id>, old0: seq<Live>, newCh: seq<VNode>, c: Cursor)
    requires Turn(h0, h, p, s, old0, newCh, c) && c.oldStart <= c.oldEnd && c.oldCh[c.oldStart].None?
    ensures Turn(h0, h, p, s, old0, newCh, c.(oldStart := c.oldStart + 1))
  {
    hide Progress;
    hide Reuses;
    hide Aligned;
    hide Kept;
    var c' := c.(oldStart := c.oldStart + 1);
    var rest := c.oldCh[c.oldStart + 1..c.oldEnd + 1];
    assert c.oldCh[c.oldStart..c.oldEnd + 1] == [None] + rest;
    SomesConcat([None], rest);
    assert c'.Waiting() == c.Waiting();
    BookStep(h0, old0, newCh, c, c');
  }

  lemma SkipLast(h0: Heap, h: Heap, p: Id, s: set<Id>, old0: seq<Live>, newCh: seq<VNode>, c: Cursor)
    requires Turn(h0, h, p, s, old0, newCh, c) && c.oldStart <= c.oldEnd && c.oldCh[c.oldEnd].None?
    ensures Turn(h0, h, p, s, old0, newCh, c.(oldEnd := c.oldEnd - 1))
  {
    hide Progress;
    hide Reuses;
    hide Aligned;
    hide Kept;
    var c' := c.(oldEnd := c.oldEnd - 1);
    var rest := c.oldCh[c.oldStart..c.oldEnd];
    assert c.oldCh[c.oldStart..c.oldEnd + 1] == rest + [None];
    SomesConcat(rest, [None]);
    assert c'.Waiting() == c.Waiting();
    BookStep(h0, old0, newCh, c, c');
  }

  /** The cursor after slot `k` has been taken off the waiting slots. */
  ghost predicate Took(c: Cursor, k: int, c1: Cursor) {
    && c.InRange() && c.IsWaiting(k) && c1.InRange() && |c1.oldCh| == |c.oldCh|
    && c1.left == c.left && c1.right == c.right && c1.newStart == c.newStart && c1.newEnd == c.newEnd
    && (forall j :: c1.IsWaiting(j) <==> c.IsWaiting(j) && j != k)
    && (forall j :: 0 <= j < |c.oldCh| && c1.oldCh[j].Some? ==> c1.oldCh[j] == c.oldCh[j])
    && c1.Waiting() == Others(c, k)
  }

  lemma TookFirst(c: Cursor)
    requires c.InRange() && c.IsWaiting(c.oldStart)
    ensures Took(c, c.oldStart, c.(oldStart := c.oldStart + 1))
    ensures c.BeforeSlot(c.oldStart) == []
  {
  }

  lemma TookLast(c: Cursor)
    requires c.InRange() && c.IsWaiting(c.oldEnd)
    ensures Took(c, c.oldEnd, c.(oldEnd := c.oldEnd - 1))
    ensures c.AfterSlot(c.oldEnd) == []
  {
  }

  lemma TookMarked(c: Cursor, k: int)
    requires c.InRange() && c.IsWaiting(k)
    ensures Took(c, k, c.(oldCh := c.oldCh[k := None]))
  {
    WaitingMarked(c, k);
    hide Somes, Others;
  }

  lemma WaitingMarked(c: Cursor, k: int)
    requires c.InRange() && c.IsWaiting(k)
    ensures c.(oldCh := c.oldCh[k := None]).Waiting() == Others(c, k)
  {
    var a, b := c.oldCh[c.oldStart..k], c.oldCh[k + 1..c.oldEnd + 1];
    hide Somes;
    SomesNone(a, b);
    SliceAt(c.oldCh[k := None], c.oldStart, k, c.oldEnd + 1);
    assert c.oldCh[k := None][c.oldStart..k] == a && c.oldCh[k := None][k + 1..c.oldEnd + 1] == b;
  }

  /** The cursor after a new node has been finished at one end. */
  ghost predicate Placed(c1: Cursor, l: Live, front: bool, c': Cursor) {
    if front then c' == c1.(newStart := c1.newStart + 1, left := c1.left + [l])
    else c' == c1.(newEnd := c1.newEnd - 1, right := [l] + c1.right)
  }

  lemma TookPlaced(c: Cursor, k: int, l: Live, front: bool, c1: Cursor, c': Cursor)
    requires Took(c, k, c1) && Placed(c1, l, front, c') && c.newStart <= c.newEnd
    ensures Consumes(c, k, l, front, c') && c'.InRange() && c'.Waiting() == Others(c, k)
  {
    hide Somes;
    assert c'.oldCh == c1.oldCh && c'.oldStart == c1.oldStart && c'.oldEnd == c1.oldEnd;
  }

  /** Looking at slot `k` on its own before its node is patched. */
  lemma Expose(h0: Heap, h: Heap, p: Id, s: set<Id>, old0: seq<Live>, newCh: seq<VNode>, c: Cursor, k: int)
    requires Turn(h0, h, p, s, old0, newCh, c) && c.IsWaiting(k)
    ensures Progress(h0, h, p, s, (c.left + c.BeforeSlot(k)) + [c.oldCh[k].value] + (c.AfterSlot(k) + c.right))
    ensures c.oldCh[k].value == old0[k] && old0[k].elm in s
  {
    hide Progress;
    ShownAt(c, k);
    assert old0[k] in old0;
  }

  /** The patched node already stands where the new order wants it. */
  lemma SettleInPlace(h0: Heap, h: Heap, h': Heap, p: Id, s: set<Id>, old0: seq<Live>, newCh: seq<VNode>,
                      c: Cursor, k: int, l: Live, front: bool, c1: Cursor, c': Cursor)
    requires Turn(h0, h, p, s, old0, newCh, c) && c.IsWaiting(k) && c.newStart <= c.newEnd
    requires Progress(h0, h', p, s, (c.left + c.BeforeSlot(k)) + [l] + (c.AfterSlot(k) + c.right))
    requires if front then c.BeforeSlot(k) == [] else c.AfterSlot(k) == []
    requires Took(c, k, c1) && Placed(c1, l, front, c')
    requires l.vnode == newCh[if front then c.newStart else c.newEnd]
    requires l.elm == old0[k].elm && SameVnode(old0[k].vnode, l.vnode)
    ensures Turn(h0, h', p, s, old0, newCh, c')
  {
    hide Progress;
    hide Book;
    BookRange(h0, old0, newCh, c);
    TookPlaced(c, k, l, front, c1, c');
    hide Took, Placed, Consumes, Somes;
    ShownAfter(c, k, l, front, c');
    BookConsumes(h0, old0, newCh, c, k, l, front, c');
    if front {
      assert c.left + [] == c.left && [] + c.AfterSlot(k) == c.AfterSlot(k);
    } else {
      assert [] + c.right == c.right && c.BeforeSlot(k) + [] == c.BeforeSlot(k);
    }
  }

  /** Where a patched node goes: in front of everything that still waits, or behind it. */
  lemma MoveReady(h0: Heap, h: Heap, p: Id, s: set<Id>, c: Cursor, k: int, l: Live, front: bool)
    requires c.InRange() && c.IsWaiting(k)
    requires Progress(h0, h, p, s, (c.left + c.BeforeSlot(k)) + [l] + (c.AfterSlot(k) + c.right))
    requires l.elm in s
    ensures l.elm in h && p in h && l.elm != p
    ensures
      var b' := if front then Others(c, k) + c.right else c.right;
      var ref := if b' != [] then Some(b'[0].elm) else None;
      && ref != Some(l.elm)
      && Progress(h0, Attached(Detached(h, l.elm), p, l.elm, ref), p, s,
           if front then c.left + [l] + (Others(c, k) + c.right) else (c.left + Others(c, k)) + [l] + c.right)
  {
    hide Progress;
    var a, b := c.left + c.BeforeSlot(k), c.AfterSlot(k) + c.right;
    var a' := if front then c.left else c.left + Others(c, k);
    var b' := if front then Others(c, k) + c.right else c.right;
    assert a + b == a' + b';
    ProgressMove(h0, h, p, s, a, l, b, a', b', if b' != [] then Some(b'[0].elm) else None);
  }

  lemma SettleMoved(h0: Heap, h: Heap, h': Heap, p: Id, s: set<Id>, old0: seq<Live>, newCh: seq<VNode>,
                    c: Cursor, k: int, l: Live, front: bool, c1: Cursor, c': Cursor)
    requires Turn(h0, h, p, s, old0, newCh, c) && c.IsWaiting(k) && c.newStart <= c.newEnd
    requires Progress(h0, h', p, s,
      if front then c.left + [l] + (Others(c, k) + c.right) else (c.left + Others(c, k)) + [l] + c.right)
    requires Took(c, k, c1) && Placed(c1, l, front, c')
    requires l.vnode == newCh[if front then c.newStart else c.newEnd]
    requires l.elm == old0[k].elm && SameVnode(old0[k].vnode, l.vnode)
    ensures Turn(h0, h', p, s, old0, newCh, c')
  {
    hide Progress;
    hide Book;
    BookRange(h0, old0, newCh, c);
    TookPlaced(c, k, l, front, c1, c');
    hide Took, Placed, Consumes, Somes;
    ShownAfter(c, k, l, front, c');
    BookConsumes(h0, old0, newCh, c, k, l, front, c');
  }

  /** `nextSibling` of the last waiting old child is the first finished node behind it. */
  lemma SiblingOfLast(h0: Heap, h: Heap, p: Id, s: set<Id>, c: Cursor, a: seq<Live>)
    requires c.InRange() && c.IsWaiting(c.oldEnd)
    requires Progress(h0, h, p, s, a + [c.oldCh[c.oldEnd].value] + c.right)
    ensures c.oldCh[c.oldEnd].value.elm in h
    ensures h[c.oldCh[c.oldEnd].value.elm].parent == Some(p) && p in h
    ensures After(h[p].kids, c.oldCh[c.oldEnd].value.elm) == if c.right != [] then Some(c.right[0].elm) else None
  {
    hide Mirrors;
    hide Foot;
    var x := c.oldCh[c.oldEnd].value;
    ForestSplit(h, p, a, x, c.right);
    ForestDistinct(h, p, a + [x] + c.right);
    AfterAt(h[p].kids, |a|);
  }

  lemma CreatedShown(c: Cursor, l: Live, c': Cursor)
    requires c.InRange() && c.IsWaiting(c.oldStart) && c.newStart <= c.newEnd
    requires c' == c.(newStart := c.newStart + 1, left := c.left + [l])
    ensures var b := c.Waiting() + c.right;
            b != [] && b[0] == c.oldCh[c.oldStart].value && c.Shown() == c.left + b && c'.Shown() == c.left + [l] + b
  {
    WaitingAt(c, c.oldStart);
    ShownGrows(c, l, c');
  }

  /** A new node in front of the first waiting old child. */
  lemma SettleCreated(h0: Heap, h: Heap, h': Heap, p: Id, s: set<Id>, old0: seq<Live>, newCh: seq<VNode>,
                      c: Cursor, l: Live, c': Cursor)
    requires Turn(h0, h, p, s, old0, newCh, c) && c.IsWaiting(c.oldStart) && c.newStart <= c.newEnd
    requires Mirrors(h', l) && Foot(h', l) !! h.Keys && l.vnode == newCh[c.newStart]
    requires Grafted(h, h', Some(p), Some(c.oldCh[c.oldStart].value.elm), l.elm)
    requires c' == c.(newStart := c.newStart + 1, left := c.left + [l])
    ensures Turn(h0, h', p, s, old0, newCh, c') && l.elm !in h0
  {
    hide Mirrors;
    hide Foot;
    hide Progress;
    ProgressKeys(h0, h, p, s, c.Shown());
    hide Kept;
    hide Book;
    hide Aligned;
    BookRange(h0, old0, newCh, c);
    CreatedShown(c, l, c');
    hide Somes, Grafted;
    var b := c.Waiting() + c.right;
    ProgressGraft(h0, h, h', p, s, c.left, l, b, Some(c.oldCh[c.oldStart].value.elm));
    InFoot(h', l);
    BookCreated(h0, old0, newCh, c, l, c');
  }

  lemma CreatedAligned(h0: Heap, old0: seq<Live>, newCh: seq<VNode>, c: Cursor, l: Live)
    requires Book(h0, old0, newCh, c) && c.newStart <= c.newEnd && l.elm !in h0 && l.vnode == newCh[c.newStart]
    ensures Aligned(c.left + [l], newCh[..c.newStart + 1]) && Reuses(h0, old0, c.left + [l])
  {
  }

  lemma ShownGrows(c: Cursor, l: Live, c': Cursor)
    requires c.InRange() && c.newStart <= c.newEnd
    requires c' == c.(newStart := c.newStart + 1, left := c.left + [l])
    ensures c.Shown() == c.left + (c.Waiting() + c.right) && c'.Shown() == c.left + [l] + (c.Waiting() + c.right)
  {
    hide Somes;
    assert c'.Waiting() == c.Waiting();
  }

  lemma BookCreated(h0: Heap, old0: seq<Live>, newCh: seq<VNode>, c: Cursor, l: Live, c': Cursor)
    requires Book(h0, old0, newCh, c) && c.newStart <= c.newEnd
    requires l.elm !in h0 && l.vnode == newCh[c.newStart]
    requires c' == c.(newStart := c.newStart + 1, left := c.left + [l])
    ensures Book(h0, old0, newCh, c')
  {
    CreatedAligned(h0, old0, newCh, c, l);
    ShownGrows(c, l, c');
    hide Somes, Aligned, Reuses, UsedUp, Kept;
    var b := c.Waiting() + c.right;
    KeptMore(old0, c.left, l, b);
    BookStep(h0, old0, newCh, c, c');
  }

  lemma KeptMore(old0: seq<Live>, a: seq<Live>, l: Live, b: seq<Live>)
    requires Kept(old0, a + b)
    ensures Kept(old0, a + [l] + b)
  {
    forall o | o in old0 ensures o.elm in Elms(a + [l] + b) {
      var i :| 0 <= i < |a + b| && (a + b)[i].elm == o.elm;
      assert (a + [l] + b)[if i < |a| then i else i + 1] == (a + b)[i];
    }
  }

  lemma StartUpdate(h0: Heap, p: Id, old0: seq<Live>, newCh: seq<VNode>, c: Cursor)
    requires Forest(h0, p, old0)
    requires c.oldCh == seq(|old0|, i requires 0 <= i < |old0| => Some(old0[i]))
    requires c == Cursor(c.oldCh, 0, |old0| - 1, 0, |newCh| - 1, [], [])
    ensures Turn(h0, h0, p, FootAll(h0, old0), old0, newCh, c)
  {
    hide Mirrors;
    hide Foot;
    StartBook(h0, old0, newCh, c);
    hide Book;
    ElmsInFoot(h0, old0);
    FootAllInHeap(h0, p, old0);
    forall k | c.IsWaiting(k) ensures c.oldCh[k].value.elm in FootAll(h0, old0) {
      assert Elms(old0)[k] == old0[k].elm;
    }
  }

  lemma StartFollows(h0: Heap, old0: seq<Live>, newCh: seq<VNode>, c: Cursor)
    requires c == Cursor(Slots(old0), 0, |old0| - 1, 0, |newCh| - 1, [], [])
    ensures Follows(h0, old0, newCh, AllPartners(old0, newCh), c, None)
  {
    hide Partners;
  }

  lemma KeepsItself(ls: seq<Live>)
    ensures Kept(ls, ls)
  {
    forall o | o in ls ensures o.elm in Elms(ls) {
      var i :| 0 <= i < |ls| && ls[i] == o;
      assert Elms(ls)[i] == o.elm;
    }
  }

  lemma StartShown(old0: seq<Live>, c: Cursor)
    requires c.oldCh == seq(|old0|, i requires 0 <= i < |old0| => Some(old0[i]))
    requires c.oldStart == 0 && c.oldEnd == |old0| - 1 && c.left == [] && c.right == [] && c.InRange()
    ensures c.Shown() == old0
  {
    SomesAll(old0);
    assert c.oldCh[0..|old0|] == c.oldCh;
    assert [] + old0 + [] == old0;
  }

  lemma StartBook(h0: Heap, old0: seq<Live>, newCh: seq<VNode>, c: Cursor)
    requires c.oldCh == seq(|old0|, i requires 0 <= i < |old0| => Some(old0[i]))
    requires c == Cursor(c.oldCh, 0, |old0| - 1, 0, |newCh| - 1, [], [])
    ensures Book(h0, old0, newCh, c) && c.Shown() == old0
  {
    hide Somes, Kept;
    StartShown(old0, c);
    KeepsItself(old0);
    assert newCh[..0] == [] && newCh[|newCh|..] == [];
  }

  lemma FirstOther(c: Cursor, k: int)
    requires c.InRange() && c.IsWaiting(k) && c.IsWaiting(c.oldStart) && k != c.oldStart
    ensures Others(c, k) != [] && Others(c, k)[0] == c.oldCh[c.oldStart].value
  {
    assert c.oldCh[c.oldStart..k][0] == c.oldCh[c.oldStart];
  }

  lemma LastWaiting(h0: Heap, h: Heap, p: Id, s: set<Id>, c: Cursor, l: Live)
    requires c.InRange() && c.IsWaiting(c.oldStart) && c.IsWaiting(c.oldEnd) && c.oldStart != c.oldEnd
    requires Progress(h0, h, p, s, (c.left + c.BeforeSlot(c.oldStart)) + [l] + (c.AfterSlot(c.oldStart) + c.right))
    ensures c.oldCh[c.oldEnd].value.elm in h
    ensures h[c.oldCh[c.oldEnd].value.elm].parent == Some(p) && p in h
    ensures After(h[p].kids, c.oldCh[c.oldEnd].value.elm) == if c.right != [] then Some(c.right[0].elm) else None
  {
    hide Progress;
    var x := c.oldCh[c.oldEnd].value;
    var slots := c.oldCh[c.oldStart + 1..c.oldEnd];
    var mid := Somes(slots);
    SomesLast(slots, x);
    assert c.oldCh[c.oldStart + 1..c.oldEnd + 1] == slots + [Some(x)];
    assert c.AfterSlot(c.oldStart) == mid + [x];
    hide Somes;
    var a := c.left + c.BeforeSlot(c.oldStart) + [l] + mid;
    assert (c.left + c.BeforeSlot(c.oldStart)) + [l] + (c.AfterSlot(c.oldStart) + c.right) == a + [x] + c.right;
    SiblingOfLast(h0, h, p, s, c, a);
  }

  lemma FirstInPlace(h0: Heap, h: Heap, p: Id, s: set<Id>, old0: seq<Live>, newCh: seq<VNode>, c: Cursor)
    requires Turn(h0, h, p, s, old0, newCh, c) && c.IsWaiting(c.oldStart)
    ensures p in h && c.oldCh[c.oldStart].value.elm in h
  {
    hide Mirrors;
    hide Foot;
    ShownAt(c, c.oldStart);
    ForestSplit(h, p, c.left + c.BeforeSlot(c.oldStart), c.oldCh[c.oldStart].value, c.AfterSlot(c.oldStart) + c.right);
  }

  lemma FinishAdded(h0: Heap, old0: seq<Live>, newCh: seq<VNode>, c: Cursor, added: seq<Live>)
    requires Book(h0, old0, newCh, c) && c.oldStart > c.oldEnd
    requires Aligned(added, newCh[c.newStart..c.newEnd + 1]) && forall l | l in added :: l.elm !in h0
    ensures Aligned(c.left + added + c.right, newCh) && Reuses(h0, old0, c.left + added + c.right)
    ensures forall o | o in old0 :: o.elm in Elms(c.left + added + c.right)
  {
    FinishAddedOrder(h0, old0, newCh, c, added);
    KeptAtEnd(h0, old0, newCh, c);
    hide Book, Aligned, Reuses, Elms, Kept;
    KeptWithAdded(old0, c.left, added, c.right);
  }

  lemma KeptAtEnd(h0: Heap, old0: seq<Live>, newCh: seq<VNode>, c: Cursor)
    requires Book(h0, old0, newCh, c) && c.oldStart > c.oldEnd
    ensures Kept(old0, c.left + c.right)
  {
    hide Aligned, Reuses, UsedUp, Kept, Elms;
    assert c.Waiting() == [];
    assert c.Shown() == c.left + c.right;
  }

  lemma KeptWithAdded(old0: seq<Live>, a: seq<Live>, added: seq<Live>, b: seq<Live>)
    requires Kept(old0, a + b)
    ensures forall o | o in old0 :: o.elm in Elms(a + added + b)
  {
    forall o | o in old0 ensures o.elm in Elms(a + added + b) {
      var i :| 0 <= i < |a + b| && (a + b)[i].elm == o.elm;
      assert (a + added + b)[if i < |a| then i else i + |added|] == (a + b)[i];
    }
  }

  lemma FinishAddedOrder(h0: Heap, old0: seq<Live>, newCh: seq<VNode>, c: Cursor, added: seq<Live>)
    requires Book(h0, old0, newCh, c) && c.oldStart > c.oldEnd
    requires Aligned(added, newCh[c.newStart..c.newEnd + 1]) && forall l | l in added :: l.elm !in h0
    ensures Aligned(c.left + added + c.right, newCh) && Reuses(h0, old0, c.left + added + c.right)
  {
    assert Reuses(h0, old0, added);
    var va, vb, vc := newCh[..c.newStart], newCh[c.newStart..c.newEnd + 1], newCh[c.newEnd + 1..];
    assert Aligned(c.left, va) && Aligned(c.right, vc) && Reuses(h0, old0, c.left) && Reuses(h0, old0, c.right);
    hide Book, Aligned, Reuses;
    AlignedJoin(c.left, added, va, vb);
    AlignedJoin(c.left + added, c.right, va + vb, vc);
    ReusesJoin(h0, old0, c.left, added);
    ReusesJoin(h0, old0, c.left + added, c.right);
    assert newCh == va + vb + vc;
  }

  lemma FinishRemoved(h0: Heap, h: Heap, old0: seq<Live>, newCh: seq<VNode>, c: Cursor)
    requires Book(h0, old0, newCh, c) && c.newStart > c.newEnd
    requires forall i :: c.oldStart <= i <= c.oldEnd && c.oldCh[i].Some? ==>
      c.oldCh[i].value.elm in h && h[c.oldCh[i].value.elm].parent == None
    ensures Aligned(c.left + c.right, newCh) && Reuses(h0, old0, c.left + c.right)
    ensures forall o | o in old0 :: o.elm in Elms(c.left + c.right) || (o.elm in h && h[o.elm].parent == None)
  {
    FinishOrder(h0, old0, newCh, c);
    assert Kept(old0, c.Shown()) && c.InRange();
    hide Book, Aligned, Reuses;
    forall o | o in old0 ensures o.elm in Elms(c.left + c.right) || (o.elm in h && h[o.elm].parent == None) {
      KeptOrRemoved(h, c, o.elm);
    }
  }

  lemma FinishOrder(h0: Heap, old0: seq<Live>, newCh: seq<VNode>, c: Cursor)
    requires Book(h0, old0, newCh, c) && c.newStart > c.newEnd
    ensures Aligned(c.left + c.right, newCh) && Reuses(h0, old0, c.left + c.right)
  {
    AlignedJoin(c.left, c.right, newCh[..c.newStart], newCh[c.newEnd + 1..]);
    ReusesJoin(h0, old0, c.left, c.right);
    hide Aligned, Reuses;
    assert newCh == newCh[..c.newStart] + newCh[c.newEnd + 1..];
  }

  lemma AlignedJoin(a: seq<Live>, b: seq<Live>, va: seq<VNode>, vb: seq<VNode>)
    requires Aligned(a, va) && Aligned(b, vb)
    ensures Aligned(a + b, va + vb)
  {
  }

  lemma ReusesJoin(h0: Heap, old0: seq<Live>, a: seq<Live>, b: seq<Live>)
    requires Reuses(h0, old0, a) && Reuses(h0, old0, b)
    ensures Reuses(h0, old0, a + b)
  {
  }

  lemma KeptOrRemoved(h: Heap, c: Cursor, e: Id)
    requires c.InRange() && e in Elms(c.Shown())
    requires forall i :: c.oldStart <= i <= c.oldEnd && c.oldCh[i].Some? ==>
      c.oldCh[i].value.elm in h && h[c.oldCh[i].value.elm].parent == None
    ensures e in Elms(c.left + c.right) || (e in h && h[e].parent == None)
  {
    var i :| 0 <= i < |c.Shown()| && c.Shown()[i].elm == e;
    if i < |c.left| {
      assert (c.left + c.right)[i] == c.Shown()[i];
    } else if i < |c.left| + |c.Waiting()| {
      var slice, l := c.oldCh[c.oldStart..c.oldEnd + 1], c.Waiting()[i - |c.left|];
      assert c.Shown()[i] == l;
      SomesFrom(slice, l);
      var j :| 0 <= j < |slice| && slice[j] == Some(l);
      assert c.oldCh[c.oldStart + j] == Some(l);
    } else {
      assert (c.left + c.right)[i - |c.Waiting()|] == c.Shown()[i];
    }
  }

  lemma {:induction false} SomesFrom(s: seq<Option<Live>>, l: Live)
    requires l in Somes(s)
    ensures Some(l) in s
  {
    if s[0] != Some(l) {
      SomesFrom(s[1..], l);
    }
  }

  // -------------------------------------------------------------------- patchVnode

  /** `l` now shows its virtual node at the element of `o`, and nothing outside the
      subtree of `o` has changed. */
  ghost predicate Patched(h0: Heap, h: Heap, o: Live, l: Live) {
    && o.elm in h0 && l.elm == o.elm
    && Mirrors(h, l)
    && Frame(h0, h, Foot(h0, o))
    && Foot(h, l) * h0.Keys <= Foot(h0, o)
    && h[l.elm].parent == h0[o.elm].parent
  }

  lemma ChildrenPatched(h0: Heap, h: Heap, o: Live, l: Live)
    requires Mirrors(h0, o) && o.vnode.children.Present?
    requires l.elm == o.elm && l.vnode.tag == o.vnode.tag && Plain(l.vnode) && l.vnode.children.Present?
    requires Progress(h0, h, o.elm, FootAll(h0, o.kids), l.kids) && Aligned(l.kids, l.vnode.children.list)
    ensures Patched(h0, h, o, l)
  {
    ElementUnderForest(h0, o);
    ElementOverForest(h, l);
  }

  /** The element of `o` without children, the rest of the document as it was. */
  ghost predicate Emptied(h0: Heap, h: Heap, o: Live) {
    && o.elm in h0 && h.Keys == h0.Keys
    && h[o.elm] == h0[o.elm].(kids := [])
    && Frame(h0, h, Foot(h0, o))
  }

  lemma TextCleared(h0: Heap, h: Heap, o: Live)
    requires Mirrors(h0, o) && o.vnode.tag.Some? && o.vnode.children.Absent?
    requires h == if o.vnode.text.Some? then Orphaned(h0, o.elm) else h0
    ensures Emptied(h0, h, o)
  {
  }

  lemma ChildrenAdded(h0: Heap, h: Heap, h': Heap, o: Live, l: Live)
    requires Mirrors(h0, o) && Emptied(h0, h, o)
    requires l.elm == o.elm && l.vnode.tag.Some? && l.vnode.tag == o.vnode.tag
    requires Plain(l.vnode) && l.vnode.children.Present?
    requires Progress(h, h', o.elm, {}, [] + l.kids + []) && Aligned(l.kids, l.vnode.children.list)
    ensures Patched(h0, h', o, l)
  {
    assert [] + l.kids + [] == l.kids;
    ElementOverForest(h', l);
    InFoot(h0, o);
  }

  lemma AllSome(h0: Heap, p: Id, ls: seq<Live>, oldCh: seq<Option<Live>>)
    requires Forest(h0, p, ls)
    requires oldCh == seq(|ls|, i requires 0 <= i < |ls| => Some(ls[i]))
    ensures Progress(h0, h0, p, FootAll(h0, ls), [] + Somes(oldCh[0..|oldCh| - 1 + 1]) + [])
    ensures forall l :: Some(l) in oldCh ==> l.elm in FootAll(h0, ls)
  {
    hide Mirrors;
    hide Foot;
    SomesAll(ls);
    assert oldCh[0..|oldCh| - 1 + 1] == oldCh;
    assert [] + ls + [] == ls;
    ElmsInFoot(h0, ls);
  }

  lemma ChildrenRemoved(h0: Heap, h: Heap, o: Live, l: Live)
    requires Mirrors(h0, o) && o.vnode.children.Present?
    requires l.elm == o.elm && l.vnode.tag == o.vnode.tag && Plain(l.vnode)
    requires l.vnode.children.Absent? && l.vnode.text.None? && l.kids == []
    requires Progress(h0, h, o.elm, FootAll(h0, o.kids), [] + [])
    ensures Patched(h0, h, o, l)
  {
    ElementUnderForest(h0, o);
  }

  /** What `setTextContent` did to the node of `o`. */
  ghost predicate TextSet(h0: Heap, h: Heap, elm: Id, text: string) {
    && elm in h0
    && (!h0[elm].kind.Element? ==> h == h0[elm := h0[elm].(data := text)])
    && (h0[elm].kind.Element? && text == "" ==> h == Orphaned(h0, elm))
    && (h0[elm].kind.Element? && text != "" ==>
          exists t :: t !in h0 &&
            h == Attached(Orphaned(h0, elm)[t := Node(Text, text, [], None)], elm, t, None))
  }

  lemma TextPatched(h0: Heap, h: Heap, o: Live, l: Live)
    requires Mirrors(h0, o) && l.elm == o.elm && l.kids == []
    requires l.vnode.tag == o.vnode.tag && l.vnode.isComment == o.vnode.isComment
    requires Plain(l.vnode) && l.vnode.text.Some? && l.vnode.text != o.vnode.text
    requires TextSet(h0, h, o.elm, l.vnode.text.value) && l.bare == (l.vnode.text.value == "")
    ensures Patched(h0, h, o, l)
  {
    InFoot(h0, o);
    assert KidSet(h0, o.elm) <= Foot(h0, o);
    if o.vnode.tag.None? {
      LeafTextPatched(h0, h, o, l);
    } else if l.vnode.text.value == "" {
      EmptyTextPatched(h0, h, o, l);
    } else {
      var t: Id :| t !in h0 &&
        h == Attached(Orphaned(h0, o.elm)[t := Node(Text, l.vnode.text.value, [], None)], o.elm, t, None);
      NewTextPatched(h0, h, o, l, t);
    }
  }

  lemma LeafTextPatched(h0: Heap, h: Heap, o: Live, l: Live)
    requires Mirrors(h0, o) && l.elm == o.elm && l.kids == []
    requires o.vnode.tag.None? && l.vnode.tag.None? && l.vnode.isComment == o.vnode.isComment
    requires Plain(l.vnode) && l.vnode.text.Some?
    requires TextSet(h0, h, o.elm, l.vnode.text.value)
    ensures Patched(h0, h, o, l)
  {
    InFoot(h0, o);
  }

  lemma EmptyTextPatched(h0: Heap, h: Heap, o: Live, l: Live)
    requires Mirrors(h0, o) && l.elm == o.elm && l.kids == []
    requires o.vnode.tag.Some? && l.vnode.tag == o.vnode.tag && Plain(l.vnode) && l.vnode.text == Some("") && l.bare
    requires h == Orphaned(h0, o.elm)
    ensures Patched(h0, h, o, l)
  {
    InFoot(h0, o);
    assert KidSet(h0, o.elm) <= Foot(h0, o);
  }

  lemma NewTextPatched(h0: Heap, h: Heap, o: Live, l: Live, t: Id)
    requires Mirrors(h0, o) && l.elm == o.elm && l.kids == []
    requires o.vnode.tag.Some? && l.vnode.tag == o.vnode.tag && Plain(l.vnode)
    requires l.vnode.text.Some? && l.vnode.text.value != "" && t !in h0 && !l.bare
    requires h == Attached(Orphaned(h0, o.elm)[t := Node(Text, l.vnode.text.value, [], None)], o.elm, t, None)
    ensures Patched(h0, h, o, l)
  {
    InFoot(h0, o);
    assert KidSet(h0, o.elm) <= Foot(h0, o);
    assert h[o.elm].kids == [t];
    assert forall id :: id in h0 && id !in Foot(h0, o) ==> id !in h0[o.elm].kids;
  }

  lemma TextDropped(h0: Heap, h: Heap, o: Live, l: Live)
    requires Mirrors(h0, o) && l.elm == o.elm && l.kids == []
    requires o.vnode.tag.Some? && l.vnode.tag == o.vnode.tag
    requires Plain(l.vnode) && l.vnode.text.None? && l.vnode.children.Absent?
    requires Emptied(h0, h, o)
    ensures Patched(h0, h, o, l)
  {
    InFoot(h0, o);
  }

  /** Nothing to do: neither node has children and their text is the same. */
  lemma TextUnchanged(h0: Heap, o: Live, l: Live)
    requires Mirrors(h0, o) && l.elm == o.elm && l.kids == []
    requires l.vnode.tag == o.vnode.tag && l.vnode.isComment == o.vnode.isComment
    requires Plain(l.vnode) && l.vnode.text.Some? && l.vnode.text == o.vnode.text && l.bare == o.bare
    ensures Patched(h0, h0, o, l)
  {
    InFoot(h0, o);
  }

  /** Patches one child of `p` where it stands. */
  method PatchChild(doc: Document, x: Live, v: VNode,
                    ghost h0: Heap, ghost p: Id, ghost s: set<Id>, ghost a: seq<Live>, ghost b: seq<Live>)
    returns (l: Live)
    requires doc.Valid() && Progress(h0, doc.nodes, p, s, a + [x] + b)
    requires Patchable(v) && SameVnode(x.vnode, v)
    modifies doc
    ensures doc.Valid() && Progress(h0, doc.nodes, p, s, a + [l] + b)
    ensures l.elm == x.elm && l.vnode == v && (Full(l) <==> FullAfter(x, v))
    ensures UniqueKeys(x.vnode) ==> Reused(x, l)
    decreases v, 2
  {
    hide Mirrors;
    hide Foot;
    hide Forest;
    hide Full, FullAfter, Reused;
    ForestSplit(doc.nodes, p, a, x, b);
    ghost var h := doc.nodes;
    l := PatchVnode(doc, x, v);
    ProgressReplace(h0, h, doc.nodes, p, s, a, x, b, l);
  }

  /** Patches the old child in slot `k` where it stands. */
  method PatchSlot(doc: Document, p: Id, ghost h0: Heap, ghost s: set<Id>, ghost old0: seq<Live>,
                   ghost newCh: seq<VNode>, c: Cursor, k: int, v: VNode)
    returns (l: Live)
    requires doc.Valid() && Turn(h0, doc.nodes, p, s, old0, newCh, c) && c.IsWaiting(k)
    requires Patchable(v) && SameVnode(c.oldCh[k].value.vnode, v)
    modifies doc
    ensures doc.Valid()
    ensures Progress(h0, doc.nodes, p, s, (c.left + c.BeforeSlot(k)) + [l] + (c.AfterSlot(k) + c.right))
    ensures l.vnode == v && l.elm == old0[k].elm && l.elm in s && SameVnode(old0[k].vnode, v)
    ensures (Full(l) <==> FullAfter(old0[k], v)) && (UniqueKeys(old0[k].vnode) ==> Reused(old0[k], l))
    decreases v, 3
  {
    hide Mirrors;
    hide Foot;
    hide FootAll;
    hide Forest;
    hide Progress;
    hide Book;
    hide Others;
    hide Plain;
    hide UniqueKeys;
    hide SameVnode;
    hide Full, FullAfter, Reused;
    TurnBook(h0, doc.nodes, p, s, old0, newCh, c);
    Expose(h0, doc.nodes, p, s, old0, newCh, c, k);
    l := PatchChild(doc, c.oldCh[k].value, v, h0, p, s,
                    c.left + c.BeforeSlot(k), c.AfterSlot(k) + c.right);
  }

  /** Patches slot `k` and moves its element in front of everything that still waits. */
  method PatchAndMoveLeft(doc: Document, p: Id, ghost h0: Heap, ghost s: set<Id>, ghost old0: seq<Live>,
                          ghost newCh: seq<VNode>, c: Cursor, k: int, v: VNode)
    returns (l: Live)
    requires doc.Valid() && Turn(h0, doc.nodes, p, s, old0, newCh, c)
    requires c.IsWaiting(k) && c.IsWaiting(c.oldStart) && k != c.oldStart
    requires Patchable(v) && SameVnode(c.oldCh[k].value.vnode, v)
    modifies doc
    ensures doc.Valid()
    ensures Progress(h0, doc.nodes, p, s, c.left + [l] + (Others(c, k) + c.right))
    ensures l.vnode == v && l.elm == old0[k].elm && SameVnode(old0[k].vnode, v)
    ensures (Full(l) <==> FullAfter(old0[k], v)) && (UniqueKeys(old0[k].vnode) ==> Reused(old0[k], l))
    decreases v, 4
  {
    hide Mirrors;
    hide Foot;
    hide FootAll;
    hide Forest;
    hide Progress;
    hide Book;
    hide Others;
    hide Plain;
    hide UniqueKeys;
    hide SameVnode;
    hide Full, FullAfter, Reused;
    TurnBook(h0, doc.nodes, p, s, old0, newCh, c);
    l := PatchSlot(doc, p, h0, s, old0, newCh, c, k, v);
    MoveReady(h0, doc.nodes, p, s, c, k, l, true);
    FirstOther(c, k);
    doc.InsertBefore(p, l.elm, Some(c.oldCh[c.oldStart].value.elm));
  }

  /** Patches the first slot and moves its element behind everything that still waits. */
  method PatchAndMoveRight(doc: Document, p: Id, ghost h0: Heap, ghost s: set<Id>, ghost old0: seq<Live>,
                           ghost newCh: seq<VNode>, c: Cursor, v: VNode)
    returns (l: Live)
    requires doc.Valid() && Turn(h0, doc.nodes, p, s, old0, newCh, c)
    requires c.IsWaiting(c.oldStart) && c.IsWaiting(c.oldEnd) && c.oldStart != c.oldEnd
    requires Patchable(v) && SameVnode(c.oldCh[c.oldStart].value.vnode, v)
    modifies doc
    ensures doc.Valid()
    ensures Progress(h0, doc.nodes, p, s, (c.left + Others(c, c.oldStart)) + [l] + c.right)
    ensures l.vnode == v && l.elm == old0[c.oldStart].elm && SameVnode(old0[c.oldStart].vnode, v)
    ensures (Full(l) <==> FullAfter(old0[c.oldStart], v)) &&
            (UniqueKeys(old0[c.oldStart].vnode) ==> Reused(old0[c.oldStart], l))
    decreases v, 4
  {
    hide Mirrors;
    hide Foot;
    hide FootAll;
    hide Forest;
    hide Progress;
    hide Book;
    hide Others;
    hide Plain;
    hide UniqueKeys;
    hide SameVnode;
    hide Full, FullAfter, Reused;
    TurnBook(h0, doc.nodes, p, s, old0, newCh, c);
    l := PatchSlot(doc, p, h0, s, old0, newCh, c, c.oldStart, v);
    MoveReady(h0, doc.nodes, p, s, c, c.oldStart, l, false);
    LastWaiting(h0, doc.nodes, p, s, c, l);
    doc.InsertBefore(p, l.elm, doc.NextSibling(c.oldCh[c.oldEnd].value.elm));
  }

  /** The last branch of the loop: the first new node is looked up among the waiting
      old children, by key if it has one, and created when none of them fits. */
  method MatchByKey(doc: Document, p: Id, ghost h0: Heap, ghost s: set<Id>, ghost old0: seq<Live>,
                    newCh: seq<VNode>, c: Cursor, keyToOldIdx: Option<map<string, int>>, ghost pairs: map<int, int>)
    returns (c': Cursor, keyToOldIdx': Option<map<string, int>>)
    requires doc.Valid() && Turn(h0, doc.nodes, p, s, old0, newCh, c)
    requires c.IsWaiting(c.oldStart) && c.IsWaiting(c.oldEnd) && 0 <= c.newStart <= c.newEnd < |newCh|
    requires UniqueNames(newCh) && forall v | v in newCh :: Patchable(v)
    requires NoEndFits(newCh, c) && Follows(h0, old0, newCh, pairs, c, keyToOldIdx)
    requires keyToOldIdx.Some? ==> IndexOk(old0, keyToOldIdx.value)
    requires keyToOldIdx.None? ==> forall j :: c.oldStart <= j <= c.oldEnd && 0 <= j < |c.oldCh| ==> c.oldCh[j].Some?
    modifies doc
    ensures doc.Valid() && Turn(h0, doc.nodes, p, s, old0, newCh, c')
    ensures keyToOldIdx'.Some? && IndexOk(old0, keyToOldIdx'.value)
    ensures c'.oldStart == c.oldStart && c'.oldEnd == c.oldEnd
    ensures c'.newStart == c.newStart + 1 && c'.newEnd == c.newEnd
    ensures Follows(h0, old0, newCh, pairs, c', keyToOldIdx')
    decreases newCh, 0
  {
    hide Mirrors;
    hide Foot;
    hide FootAll;
    hide Forest;
    hide Progress;
    hide Book;
    hide Turn;
    hide Plain;
    hide UniqueKeys;
    hide SameVnode;
    hide Reuses;
    hide Kept;
    hide Others;
    hide Took;
    hide Full, FullAfter, Reused, Follows, Partners, KeyIndex, Candidate;
    TurnBook(h0, doc.nodes, p, s, old0, newCh, c);
    FollowsRange(h0, old0, newCh, pairs, c, keyToOldIdx);
    EndPartners(newCh, c, keyToOldIdx);
    ghost var h := doc.nodes;
    keyToOldIdx' := keyToOldIdx;
    if keyToOldIdx'.None? {
      var m := CreateKeyToOldIdx(c.oldCh, c.oldStart, c.oldEnd);
      keyToOldIdx' := Some(m);
    }
    var newStartVnode := newCh[c.newStart];
    assert newStartVnode in newCh && Patchable(newStartVnode);
    var idxInOld := FindMatch(h0, old0, newCh, c, keyToOldIdx'.value);
    if idxInOld.Some? && SameVnode(c.oldCh[idxInOld.value].value.vnode, newStartVnode) {
      var k := idxInOld.value;
      var l := PatchAndMoveLeft(doc, p, h0, s, old0, newCh, c, k, newStartVnode);
      TookMarked(c, k);
      ghost var c1 := c.(oldCh := c.oldCh[k := None]);
      c' := c.(oldCh := c.oldCh[k := None], newStart := c.newStart + 1, left := c.left + [l]);
      SettleMoved(h0, h, doc.nodes, p, s, old0, newCh, c, k, l, true, c1, c');
      FollowsPlaced(h0, old0, newCh, pairs, c, keyToOldIdx, Some(k), l, true, c', keyToOldIdx');
    } else { // no old child with this key, or one that is a different element
      FirstInPlace(h0, h, p, s, old0, newCh, c);
      var l := CreateElm(doc, newStartVnode, Some(p), Some(c.oldCh[c.oldStart].value.elm));
      c' := c.(newStart := c.newStart + 1, left := c.left + [l]);
      SettleCreated(h0, h, doc.nodes, p, s, old0, newCh, c, l, c');
      FollowsPlaced(h0, old0, newCh, pairs, c, keyToOldIdx, None, l, true, c', keyToOldIdx');
    }
  }

  /** The old child to look at, by key or by comparing; it has not been consumed. */
  method FindMatch(ghost h0: Heap, ghost old0: seq<Live>, newCh: seq<VNode>, c: Cursor, index: map<string, int>)
    returns (idxInOld: Option<int>)
    requires Book(h0, old0, newCh, c) && IndexOk(old0, index) && UniqueNames(newCh)
    requires c.InRange() && c.IsWaiting(c.oldStart) && 0 <= c.newStart <= c.newEnd < |newCh|
    ensures idxInOld == Candidate(c.oldCh, newCh[c.newStart], c.oldStart, c.oldEnd, index)
    ensures idxInOld.Some? ==> c.IsWaiting(idxInOld.value)
  {
    hide Book, SameVnode, FirstSame;
    var newStartVnode := newCh[c.newStart];
    if newStartVnode.key.Some? {
      var name := newStartVnode.key.value.name;
      if name !in index {
        return None;
      }
      IndexedSlotIsWaiting(h0, old0, newCh, c, index);
      return Some(index[name]);
    }
    idxInOld := FindIdxInOld(newStartVnode, c.oldCh, c.oldStart, c.oldEnd);
  }

  predicate NoEndFits(newCh: seq<VNode>, c: Cursor)
    requires c.IsWaiting(c.oldStart) && c.IsWaiting(c.oldEnd) && 0 <= c.newStart <= c.newEnd < |newCh|
  {
    var first, last := c.oldCh[c.oldStart].value.vnode, c.oldCh[c.oldEnd].value.vnode;
    !SameVnode(first, newCh[c.newStart]) && !SameVnode(last, newCh[c.newEnd]) &&
    !SameVnode(first, newCh[c.newEnd]) && !SameVnode(last, newCh[c.newStart])
  }

  lemma FollowsRange(h0: Heap, old0: seq<Live>, newCh: seq<VNode>, pairs: map<int, int>, c: Cursor, index: Option<map<string, int>>)
    requires Follows(h0, old0, newCh, pairs, c, index)
    ensures InRange(c.oldCh, newCh, c.oldStart, c.oldEnd, c.newStart, c.newEnd)
  {
  }

  /** After the loop: new nodes that are left over are created, old ones removed. */
  method AddOrRemoveRest(doc: Document, p: Id, ghost h0: Heap, ghost s: set<Id>, ghost old0: seq<Live>,
                         newCh: seq<VNode>, c: Cursor, ghost pairs: map<int, int>, ghost index: Option<map<string, int>>)
    returns (ls: seq<Live>)
    requires doc.Valid() && Turn(h0, doc.nodes, p, s, old0, newCh, c)
    requires c.oldStart > c.oldEnd || c.newStart > c.newEnd
    requires Follows(h0, old0, newCh, pairs, c, index)
    requires forall v | v in newCh :: Patchable(v)
    modifies doc
    ensures doc.Valid() && Progress(h0, doc.nodes, p, s, ls) && Aligned(ls, newCh)
    ensures Reuses(h0, old0, ls)
    ensures forall o | o in old0 ::
      o.elm in Elms(ls) || (o.elm in doc.nodes && doc.nodes[o.elm].parent == None)
    ensures |ls| == |newCh| && AllSettled(h0, old0, newCh, pairs, 0, ls)
    decreases newCh, 1
  {
    hide Mirrors;
    hide Foot;
    hide FootAll;
    hide Forest;
    hide Progress;
    hide Book;
    hide Turn;
    hide UniqueKeys;
    hide Reuses;
    hide Kept;
    hide Full, FullAfter, Reused, Follows, Partners, AllSettled;
    TurnBook(h0, doc.nodes, p, s, old0, newCh, c);
    if c.oldStart > c.oldEnd {
      assert c.Waiting() == [];
      assert c.Shown() == c.left + c.right;
      var refElm := if c.newEnd + 1 < |newCh| then Some(c.right[0].elm) else None;
      var added := AddVnodes(doc, p, refElm, newCh, c.newStart, c.newEnd, h0, s, c.left, c.right);
      ls := c.left + added + c.right;
      FinishAdded(h0, old0, newCh, c, added);
      FollowsAdded(h0, old0, newCh, pairs, c, index, added);
    } else {
      RemoveVnodes(doc, c.oldCh, c.oldStart, c.oldEnd, h0, p, s, c.left, c.right);
      ls := c.left + c.right;
      FinishRemoved(h0, doc.nodes, old0, newCh, c);
      FollowsAdded(h0, old0, newCh, pairs, c, index, []);
      assert c.left + [] + c.right == ls;
    }
  }

  /** The rest has no partners. */
  lemma FollowsAdded(h0: Heap, old0: seq<Live>, newCh: seq<VNode>, pairs: map<int, int>, c: Cursor, index: Option<map<string, int>>,
                     added: seq<Live>)
    requires Follows(h0, old0, newCh, pairs, c, index) && (c.oldStart > c.oldEnd || c.newStart > c.newEnd)
    requires |added| == c.newEnd + 1 - c.newStart && forall l | l in added :: Full(l) && l.elm !in h0
    ensures |c.left + added + c.right| == |newCh| && AllSettled(h0, old0, newCh, pairs, 0, c.left + added + c.right)
  {
    hide Full, FullAfter, Reused;
    var ls := c.left + added + c.right;
    forall i | 0 <= i < |ls| ensures Settled(h0, old0, newCh, pairs, i, ls[i]) {
      if i < c.newStart {
        assert Settled(h0, old0, newCh, pairs, 0 + i, c.left[i]);
      } else if i <= c.newEnd {
        assert ls[i] == added[i - c.newStart];
      } else {
        assert Settled(h0, old0, newCh, pairs, c.newEnd + 1 + (i - c.newEnd - 1), c.right[i - c.newEnd - 1]);
      }
    }
  }

  /** The four comparisons of the ends, in the order the loop makes them. */
  method MatchEnds(doc: Document, p: Id, ghost h0: Heap, ghost s: set<Id>, ghost old0: seq<Live>,
                   newCh: seq<VNode>, c: Cursor, ghost pairs: map<int, int>, ghost index: Option<map<string, int>>)
    returns (c': Cursor, hit: bool)
    requires doc.Valid() && Turn(h0, doc.nodes, p, s, old0, newCh, c)
    requires c.IsWaiting(c.oldStart) && c.IsWaiting(c.oldEnd) && 0 <= c.newStart <= c.newEnd < |newCh|
    requires forall v | v in newCh :: Patchable(v)
    requires Follows(h0, old0, newCh, pairs, c, index)
    modifies doc
    ensures doc.Valid() && Turn(h0, doc.nodes, p, s, old0, newCh, c')
    ensures Follows(h0, old0, newCh, pairs, c', index)
    ensures c'.oldCh == c.oldCh && c.oldStart <= c'.oldStart && c'.oldEnd <= c.oldEnd
    ensures if hit then c'.oldEnd - c'.oldStart + c'.newEnd - c'.newStart == c.oldEnd - c.oldStart + c.newEnd - c.newStart - 2
            else c' == c && NoEndFits(newCh, c)
    decreases newCh, 1
  {
    hide Mirrors;
    hide Foot;
    hide FootAll;
    hide Forest;
    hide Progress;
    hide Book;
    hide Turn;
    hide Plain;
    hide UniqueKeys;
    hide SameVnode;
    hide Others;
    hide Took;
    hide Full, FullAfter, Reused, Follows, Partners, IndexFor, Candidate, Fits;
    TurnBook(h0, doc.nodes, p, s, old0, newCh, c);
    FollowsRange(h0, old0, newCh, pairs, c, index);
    EndPartners(newCh, c, index);
    ghost var h := doc.nodes;
    assert newCh[c.newStart] in newCh && newCh[c.newEnd] in newCh;
    c', hit := c, true;
    if SameVnode(c.oldCh[c.oldStart].value.vnode, newCh[c.newStart]) {
      var l := PatchSlot(doc, p, h0, s, old0, newCh, c, c.oldStart, newCh[c.newStart]);
      TookFirst(c);
      c' := c.(oldStart := c.oldStart + 1, newStart := c.newStart + 1, left := c.left + [l]);
      SettleInPlace(h0, h, doc.nodes, p, s, old0, newCh, c, c.oldStart, l, true,
                    c.(oldStart := c.oldStart + 1), c');
      FollowsPlaced(h0, old0, newCh, pairs, c, index, Some(c.oldStart), l, true, c', index);
    } else if SameVnode(c.oldCh[c.oldEnd].value.vnode, newCh[c.newEnd]) {
      var l := PatchSlot(doc, p, h0, s, old0, newCh, c, c.oldEnd, newCh[c.newEnd]);
      TookLast(c);
      c' := c.(oldEnd := c.oldEnd - 1, newEnd := c.newEnd - 1, right := [l] + c.right);
      SettleInPlace(h0, h, doc.nodes, p, s, old0, newCh, c, c.oldEnd, l, false,
                    c.(oldEnd := c.oldEnd - 1), c');
      FollowsPlaced(h0, old0, newCh, pairs, c, index, Some(c.oldEnd), l, false, c', index);
    } else if SameVnode(c.oldCh[c.oldStart].value.vnode, newCh[c.newEnd]) { // moved right
      var l := PatchAndMoveRight(doc, p, h0, s, old0, newCh, c, newCh[c.newEnd]);
      TookFirst(c);
      c' := c.(oldStart := c.oldStart + 1, newEnd := c.newEnd - 1, right := [l] + c.right);
      SettleMoved(h0, h, doc.nodes, p, s, old0, newCh, c, c.oldStart, l, false,
                  c.(oldStart := c.oldStart + 1), c');
      FollowsPlaced(h0, old0, newCh, pairs, c, index, Some(c.oldStart), l, false, c', index);
    } else if SameVnode(c.oldCh[c.oldEnd].value.vnode, newCh[c.newStart]) { // moved left
      var l := PatchAndMoveLeft(doc, p, h0, s, old0, newCh, c, c.oldEnd, newCh[c.newStart]);
      TookLast(c);
      c' := c.(oldEnd := c.oldEnd - 1, newStart := c.newStart + 1, left := c.left + [l]);
      SettleMoved(h0, h, doc.nodes, p, s, old0, newCh, c, c.oldEnd, l, true,
                  c.(oldEnd := c.oldEnd - 1), c');
      FollowsPlaced(h0, old0, newCh, pairs, c, index, Some(c.oldEnd), l, true, c', index);
    } else {
      hit := false;
    }
  }

  /** `updateChildren`: the two-ended walk over the old and the new children. */
  method UpdateChildren(doc: Document, p: Id, old0: seq<Live>, newCh: seq<VNode>) returns (ls: seq<Live>)
    requires doc.Valid() && Forest(doc.nodes, p, old0)
    requires UniqueNames(newCh) && forall v | v in newCh :: Patchable(v)
    modifies doc
    ensures doc.Valid()
    ensures Progress(old(doc.nodes), doc.nodes, p, FootAll(old(doc.nodes), old0), ls) && Aligned(ls, newCh)
    ensures Reuses(old(doc.nodes), old0, ls)
    ensures forall o | o in old0 ::
      o.elm in Elms(ls) || (o.elm in doc.nodes && doc.nodes[o.elm].parent == None)
    ensures |ls| == |newCh| && AllSettled(old(doc.nodes), old0, newCh, AllPartners(old0, newCh), 0, ls)
    ensures UniqueNames(VNodesOf(old0)) ==>
      forall i, j | 0 <= i < |newCh| && 0 <= j < |old0| && SameVnode(old0[j].vnode, newCh[i]) ::
        (newCh[i].key.Some? ==> ls[i].elm == old0[j].elm) &&
        (ls[i].elm !in old(doc.nodes) ==> exists k | 0 <= k < |ls| && k != i :: ls[k].elm == old0[j].elm)
    decreases newCh, 2
  {
    hide Mirrors;
    hide Foot;
    hide FootAll;
    hide Forest;
    hide Progress;
    hide Book;
    hide Turn;
    hide Plain;
    hide UniqueKeys;
    hide SameVnode;
    hide Patchable;
    hide Reuses;
    hide Kept;
    hide Others;
    hide Took;
    ghost var h0 := doc.nodes;
    ghost var s := FootAll(h0, old0);
    var c := Cursor(seq(|old0|, i requires 0 <= i < |old0| => Some(old0[i])),
                    0, |old0| - 1, 0, |newCh| - 1, [], []);
    var keyToOldIdx: Option<map<string, int>> := None;
    hide Full, FullAfter, Reused, Follows, Partners;
    ghost var pairs := AllPartners(old0, newCh);
    StartUpdate(h0, p, old0, newCh, c);
    StartFollows(h0, old0, newCh, c);
    while c.oldStart <= c.oldEnd && c.newStart <= c.newEnd
      invariant doc.Valid() && Turn(h0, doc.nodes, p, s, old0, newCh, c)
      invariant Follows(h0, old0, newCh, pairs, c, keyToOldIdx)
      invariant keyToOldIdx.Some? ==> IndexOk(old0, keyToOldIdx.value)
      invariant keyToOldIdx.None? ==> forall j :: c.oldStart <= j <= c.oldEnd && 0 <= j < |c.oldCh| ==> c.oldCh[j].Some?
      decreases c.oldEnd - c.oldStart + c.newEnd - c.newStart
    {
      TurnBook(h0, doc.nodes, p, s, old0, newCh, c);
      if c.oldCh[c.oldStart].None? {
        SkipFirst(h0, doc.nodes, p, s, old0, newCh, c);
        FollowsSkip(h0, old0, newCh, pairs, c, keyToOldIdx, c.(oldStart := c.oldStart + 1));
        c := c.(oldStart := c.oldStart + 1);
      } else if c.oldCh[c.oldEnd].None? {
        SkipLast(h0, doc.nodes, p, s, old0, newCh, c);
        FollowsSkip(h0, old0, newCh, pairs, c, keyToOldIdx, c.(oldEnd := c.oldEnd - 1));
        c := c.(oldEnd := c.oldEnd - 1);
      } else {
        var hit;
        c, hit := MatchEnds(doc, p, h0, s, old0, newCh, c, pairs, keyToOldIdx);
        if !hit {
          c, keyToOldIdx := MatchByKey(doc, p, h0, s, old0, newCh, c, keyToOldIdx, pairs);
        }
      }
    }
    ls := AddOrRemoveRest(doc, p, h0, s, old0, newCh, c, pairs, keyToOldIdx);
    if UniqueNames(VNodesOf(old0)) {
      NothingFittingRemoved(h0, p, old0, newCh, ls);
    }
  }

  /** `patchVnode`: brings the document subtree of `o` to the new virtual node `v`. */
  method PatchVnode(doc: Document, o: Live, v: VNode) returns (l: Live)
    requires doc.Valid() && Mirrors(doc.nodes, o)
    requires Patchable(v) && SameVnode(o.vnode, v)
    modifies doc
    ensures doc.Valid() && l.vnode == v && Patched(old(doc.nodes), doc.nodes, o, l)
    ensures Full(l) <==> FullAfter(o, v)
    ensures UniqueKeys(o.vnode) ==> Reused(o, l)
    ensures v.text.Some? && v.text == o.vnode.text ==> doc.nodes == old(doc.nodes)
    decreases v, 1
  {
    assert o.vnode.tag.None? ==> v.text.Some? && o.vnode.text.Some? by {
      PlainOld(doc.nodes, o);
    }
    hide Mirrors, Foot, Forest, Full, FullAfter;
    if v.text.None? {
      var kids := PatchContents(doc, o, v);
      l := Live(v, o.elm, kids, false);
    } else {
      MirrorsElm(doc.nodes, o);
      ghost var h0 := doc.nodes;
      var bare := o.bare;
      if o.vnode.text != v.text {
        doc.SetTextContent(o.elm, v.text.value);
        bare := v.text == Some("");
        TextPatched(h0, doc.nodes, o, Live(v, o.elm, [], bare));
      } else {
        TextUnchanged(h0, o, Live(v, o.elm, [], bare));
      }
      l := Live(v, o.elm, [], bare);
      FullByText(o, l);
    }
  }

  lemma PlainOld(h: Heap, o: Live)
    requires Mirrors(h, o)
    ensures Plain(o.vnode)
  {
  }

  /** The old text goes, if there was one. */
  method ClearText(doc: Document, o: Live)
    requires doc.Valid() && Mirrors(doc.nodes, o) && o.vnode.tag.Some? && o.vnode.children.Absent?
    modifies doc
    ensures doc.Valid() && Emptied(old(doc.nodes), doc.nodes, o)
  {
    hide Mirrors, Emptied, Foot;
    ghost var h0 := doc.nodes;
    ElementKind(h0, o);
    if o.vnode.text.Some? {
      doc.SetTextContent(o.elm, "");
    }
    TextCleared(h0, doc.nodes, o);
  }

  /** The four cases of children for a node that is given no text. */
  method PatchContents(doc: Document, o: Live, v: VNode) returns (kids: seq<Live>)
    requires doc.Valid() && Mirrors(doc.nodes, o)
    requires Patchable(v) && SameVnode(o.vnode, v) && v.text.None?
    modifies doc
    ensures doc.Valid() && Patched(old(doc.nodes), doc.nodes, o, Live(v, o.elm, kids, false))
    ensures Full(Live(v, o.elm, kids, false)) <==> FullAfter(o, v)
    ensures UniqueKeys(o.vnode) ==> Reused(o, Live(v, o.elm, kids, false))
    decreases v, 0
  {
    var elm := o.elm;
    kids := [];
    ghost var h0 := doc.nodes;
    MirrorsElm(h0, o);
    PlainOld(h0, o);
    hide Mirrors;
    hide Foot;
    hide Forest;
    hide Full, FullAfter, Reused;
    if o.vnode.children.Present? && v.children.Present? {
      ElementUnderForest(h0, o);
      kids := UpdateChildren(doc, elm, o.kids, v.children.list);
      ChildrenPatched(h0, doc.nodes, o, Live(v, elm, kids, false));
      FullOverPartners(h0, o, Live(v, elm, kids, false));
      if UniqueKeys(o.vnode) {
        ReusedOverPartners(h0, o, Live(v, elm, kids, false));
      }
    } else if v.children.Present? {
      ClearText(doc, o);
      ghost var h := doc.nodes;
      NoForest(h, elm);
      kids := AddVnodes(doc, elm, None, v.children.list, 0, |v.children.list| - 1, h, {}, [], []);
      ChildrenAdded(h0, h, doc.nodes, o, Live(v, elm, kids, false));
      FullWhenBuilt(o, Live(v, elm, kids, false));
    } else if o.vnode.children.Present? {
      ElementUnderForest(h0, o);
      var oldCh := seq(|o.kids|, i requires 0 <= i < |o.kids| => Some(o.kids[i]));
      AllSome(h0, elm, o.kids, oldCh);
      RemoveVnodes(doc, oldCh, 0, |oldCh| - 1, h0, elm, FootAll(h0, o.kids), [], []);
      ChildrenRemoved(h0, doc.nodes, o, Live(v, elm, [], false));
      FullWhenBuilt(o, Live(v, elm, [], false));
    } else {
      ClearText(doc, o);
      TextDropped(h0, doc.nodes, o, Live(v, elm, [], false));
      FullWhenBuilt(o, Live(v, elm, [], false));
    }
  }

  lemma FullBelow(l: Live)
    requires l.vnode.children.Present?
    ensures Full(l) <==> forall i | 0 <= i < |l.kids| :: Full(l.kids[i])
  {
    if forall i | 0 <= i < |l.kids| :: Full(l.kids[i]) {
      forall k | k in l.kids ensures Full(k) {
        var i :| 0 <= i < |l.kids| && l.kids[i] == k;
      }
    }
  }

  lemma FullAfterBelow(o: Live, v: VNode, vs: seq<VNode>, pairs: map<int, int>)
    requires v.children == Present(vs) && o.vnode.children.Present? && v.tag.Some? && pairs == AllPartners(o.kids, vs)
    ensures FullAfter(o, v) <==> forall i | i in pairs :: FullAfter(o.kids[pairs[i]], vs[i])
  {
    hide AllPartners;
  }

  lemma FullOverPartners(h0: Heap, o: Live, l: Live)
    requires l.vnode.children.Present? && o.vnode.children.Present? && l.vnode.tag.Some?
    requires var vs := l.vnode.children.list;
             |l.kids| == |vs| && AllSettled(h0, o.kids, vs, AllPartners(o.kids, vs), 0, l.kids)
    ensures Full(l) <==> FullAfter(o, l.vnode)
  {
    var vs := l.vnode.children.list;
    var pairs := AllPartners(o.kids, vs);
    FullBelow(l);
    FullAfterBelow(o, l.vnode, vs, pairs);
    hide AllPartners, Full, FullAfter, AllSettled, Settled, Reused;
    if Full(l) {
      forall i | i in pairs ensures FullAfter(o.kids[pairs[i]], vs[i]) {
        SettledAt(h0, o.kids, vs, pairs, l.kids, i);
      }
    } else {
      var i :| 0 <= i < |l.kids| && !Full(l.kids[i]);
      SettledAt(h0, o.kids, vs, pairs, l.kids, i);
      assert i in pairs && !FullAfter(o.kids[pairs[i]], vs[i]);
    }
  }

  lemma SettledAt(h0: Heap, old0: seq<Live>, newCh: seq<VNode>, pairs: map<int, int>, ls: seq<Live>, i: int)
    requires AllSettled(h0, old0, newCh, pairs, 0, ls) && 0 <= i < |ls|
    ensures if i in pairs
            then 0 <= pairs[i] < |old0| && ls[i].elm == old0[pairs[i]].elm &&
                 (Full(ls[i]) <==> FullAfter(old0[pairs[i]], newCh[i])) &&
                 (UniqueKeys(old0[pairs[i]].vnode) ==> Reused(old0[pairs[i]], ls[i]))
            else Full(ls[i]) && ls[i].elm !in h0
  {
    hide Full, FullAfter, Reused, UniqueKeys;
    assert Settled(h0, old0, newCh, pairs, 0 + i, ls[i]);
  }

  /** Old children with the key of a new one keep their elements, and one is created only where
      all old children that fit have gone to others. */
  lemma NothingFittingRemoved(h0: Heap, p: Id, old0: seq<Live>, newCh: seq<VNode>, ls: seq<Live>)
    requires UniqueNames(VNodesOf(old0)) && UniqueNames(newCh) && Forest(h0, p, old0)
    requires |ls| == |newCh| && AllSettled(h0, old0, newCh, AllPartners(old0, newCh), 0, ls)
    ensures forall i, j | 0 <= i < |newCh| && 0 <= j < |old0| && SameVnode(old0[j].vnode, newCh[i]) ::
      (newCh[i].key.Some? ==> ls[i].elm == old0[j].elm) &&
      (ls[i].elm !in h0 ==> exists k | 0 <= k < |ls| && k != i :: ls[k].elm == old0[j].elm)
  {
    var pairs := AllPartners(old0, newCh);
    NoneLeftOver(old0, newCh);
    OldElmsExist(h0, p, old0);
    hide AllSettled, Forest, SameVnode, AllPartners, UniqueNames, VNodesOf;
    forall i, j | 0 <= i < |newCh| && 0 <= j < |old0| && SameVnode(old0[j].vnode, newCh[i])
      ensures (newCh[i].key.Some? ==> ls[i].elm == old0[j].elm) &&
              (ls[i].elm !in h0 ==> exists k | 0 <= k < |ls| && k != i :: ls[k].elm == old0[j].elm)
    {
      FittingKept(h0, old0, newCh, pairs, ls, i, j);
    }
  }

  lemma FittingKept(h0: Heap, old0: seq<Live>, newCh: seq<VNode>, pairs: map<int, int>, ls: seq<Live>, i: int, j: int)
    requires |ls| == |newCh| && AllSettled(h0, old0, newCh, pairs, 0, ls)
    requires 0 <= i < |newCh| && 0 <= j < |old0| && old0[j].elm in h0
    requires forall k | k in pairs :: 0 <= k < |newCh| && 0 <= pairs[k] < |old0| && old0[pairs[k]].elm in h0
    requires i in pairs || Taken(pairs, j)
    requires newCh[i].key.Some? ==> i in pairs && pairs[i] == j
    ensures newCh[i].key.Some? ==> ls[i].elm == old0[j].elm
    ensures ls[i].elm !in h0 ==> exists k | 0 <= k < |ls| && k != i :: ls[k].elm == old0[j].elm
  {
    hide AllSettled, Full, FullAfter, Reused, UniqueKeys;
    SettledAt(h0, old0, newCh, pairs, ls, i);
    if i !in pairs {
      var k :| k in pairs && pairs[k] == j;
      SettledAt(h0, old0, newCh, pairs, ls, k);
      assert ls[k].elm == old0[j].elm && k != i;
    }
  }

  lemma OldElmsExist(h0: Heap, p: Id, old0: seq<Live>)
    requires Forest(h0, p, old0)
    ensures forall j | 0 <= j < |old0| :: old0[j].elm in h0
  {
    forall j | 0 <= j < |old0| ensures old0[j].elm in h0 {
      MirrorsElm(h0, old0[j]);
    }
  }

  /** So the keyed descendants keep their elements. */
  lemma ReusedOverPartners(h0: Heap, o: Live, l: Live)
    requires l.vnode.children.Present? && o.vnode.children.Present? && l.elm == o.elm && UniqueKeys(o.vnode)
    requires Aligned(o.kids, o.vnode.children.list)
    requires var vs := l.vnode.children.list;
             UniqueNames(vs) && Aligned(l.kids, vs) && AllSettled(h0, o.kids, vs, AllPartners(o.kids, vs), 0, l.kids)
    ensures Reused(o, l)
  {
    var vs := l.vnode.children.list;
    var pairs := AllPartners(o.kids, vs);
    assert VNodesOf(o.kids) == o.vnode.children.list;
    NoneLeftOver(o.kids, vs);
    forall i, j | 0 <= i < |l.kids| && 0 <= j < |o.kids| && l.kids[i].vnode.key.Some? &&
                  SameVnode(o.kids[j].vnode, l.kids[i].vnode)
      ensures Reused(o.kids[j], l.kids[i])
    {
      assert o.kids[j].vnode in o.vnode.children.list;
      assert vs[i] == l.kids[i].vnode;
      hide AllSettled, Settled, SameVnode, AllPartners, UniqueNames, Full, FullAfter, Reused;
      SettledAt(h0, o.kids, vs, pairs, l.kids, i);
    }
  }

  /** All children were created, or there are none. */
  lemma FullWhenBuilt(o: Live, l: Live)
    requires l.vnode.text.None? && forall k | k in l.kids :: Full(k)
    requires l.vnode.children.Present? ==> o.vnode.children.Absent?
    ensures Full(l) && FullAfter(o, l.vnode)
  {
  }

  lemma FullByText(o: Live, l: Live)
    requires Plain(l.vnode) && l.vnode.text.Some?
    requires l.bare == if l.vnode.text == o.vnode.text then o.bare else l.vnode.text == Some("")
    ensures Full(l) <==> FullAfter(o, l.vnode)
  {
  }

  lemma ElementKind(h: Heap, o: Live)
    requires Mirrors(h, o) && o.vnode.tag.Some?
    ensures o.elm in h && h[o.elm].kind.Element?
  {
  }
}
