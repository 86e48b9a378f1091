/** Which old child each new child is patched into: the decisions of `updateChildren`, apart
    from the document, and what they mean for elements with the empty text. */
module Matching {
  import opened Dom
  import opened VNodes
  import opened Mirror

  /** `createKeyToOldIdx` */
  function KeyIndex(oldCh: seq<Option<Live>>, beginIdx: int, endIdx: int): (m: map<string, int>)
    requires 0 <= beginIdx <= endIdx + 1 <= |oldCh|
    decreases endIdx - beginIdx + 1
  {
    if endIdx < beginIdx then map[]
    else
      var before := KeyIndex(oldCh, beginIdx, endIdx - 1);
      if oldCh[endIdx].Some? && oldCh[endIdx].value.vnode.key.Some?
      then before[oldCh[endIdx].value.vnode.key.value.name := endIdx] else before
  }

  /** `findIdxInOld` */
  function FirstSame(node: VNode, oldCh: seq<Option<Live>>, start: int, end: int): Option<int>
    requires 0 <= start <= end <= |oldCh|
    decreases end - start
  {
    if start == end then None
    else if oldCh[start].Some? && SameVnode(node, oldCh[start].value.vnode) then Some(start)
    else FirstSame(node, oldCh, start + 1, end)
  }

  predicate Fits(oldCh: seq<Option<Live>>, k: int, v: VNode) {
    0 <= k < |oldCh| && oldCh[k].Some? && SameVnode(oldCh[k].value.vnode, v)
  }

  predicate InRange(oldCh: seq<Option<Live>>, newCh: seq<VNode>, oldStart: int, oldEnd: int, newStart: int, newEnd: int) {
    0 <= oldStart <= oldEnd + 1 <= |oldCh| && 0 <= newStart <= newEnd + 1 <= |newCh|
  }

  /** The slot that the last branch of the loop looks at. */
  function Candidate(oldCh: seq<Option<Live>>, v: VNode, oldStart: int, oldEnd: int, index: map<string, int>): Option<int>
    requires 0 <= oldStart <= oldEnd < |oldCh|
  {
    if v.key.Some? then
      if v.key.value.name in index then Some(index[v.key.value.name]) else None
    else FirstSame(v, oldCh, oldStart, oldEnd)
  }

  function IndexFor(oldCh: seq<Option<Live>>, oldStart: int, oldEnd: int, index: Option<map<string, int>>): map<string, int>
    requires 0 <= oldStart <= oldEnd + 1 <= |oldCh|
  {
    if index.Some? then index.value else KeyIndex(oldCh, oldStart, oldEnd)
  }

  /** The old child, by its slot, that each of the new children left over will be patched
      into; the others are created. */
  function Partners(oldCh: seq<Option<Live>>, newCh: seq<VNode>, oldStart: int, oldEnd: int, newStart: int, newEnd: int,
                    index: Option<map<string, int>>): (pairs: map<int, int>)
    requires InRange(oldCh, newCh, oldStart, oldEnd, newStart, newEnd)
    ensures forall i | i in pairs :: newStart <= i <= newEnd && Fits(oldCh, pairs[i], newCh[i])
    decreases oldEnd - oldStart + newEnd - newStart
  {
    if oldStart > oldEnd || newStart > newEnd then map[]
    else if oldCh[oldStart].None? then Partners(oldCh, newCh, oldStart + 1, oldEnd, newStart, newEnd, index)
    else if oldCh[oldEnd].None? then Partners(oldCh, newCh, oldStart, oldEnd - 1, newStart, newEnd, index)
    else if Fits(oldCh, oldStart, newCh[newStart]) then
      Partners(oldCh, newCh, oldStart + 1, oldEnd, newStart + 1, newEnd, index)[newStart := oldStart]
    else if Fits(oldCh, oldEnd, newCh[newEnd]) then
      Partners(oldCh, newCh, oldStart, oldEnd - 1, newStart, newEnd - 1, index)[newEnd := oldEnd]
    else if Fits(oldCh, oldStart, newCh[newEnd]) then
      Partners(oldCh, newCh, oldStart + 1, oldEnd, newStart, newEnd - 1, index)[newEnd := oldStart]
    else if Fits(oldCh, oldEnd, newCh[newStart]) then
      Partners(oldCh, newCh, oldStart, oldEnd - 1, newStart + 1, newEnd, index)[newStart := oldEnd]
    else
      var found := IndexFor(oldCh, oldStart, oldEnd, index);
      var k := Candidate(oldCh, newCh[newStart], oldStart, oldEnd, found);
      if k.Some? && Fits(oldCh, k.value, newCh[newStart]) then
        Partners(oldCh[k.value := None], newCh, oldStart, oldEnd, newStart + 1, newEnd, Some(found))[newStart := k.value]
      else Partners(oldCh, newCh, oldStart, oldEnd, newStart + 1, newEnd, Some(found))
  }

  function Slots(ls: seq<Live>): seq<Option<Live>> {
    seq(|ls|, i requires 0 <= i < |ls| => Some(ls[i]))
  }

  /** The old child that each of all the new children will be patched into. */
  function AllPartners(old0: seq<Live>, newCh: seq<VNode>): (pairs: map<int, int>)
    ensures forall i | i in pairs :: 0 <= i < |newCh| && 0 <= pairs[i] < |old0| && SameVnode(old0[pairs[i]].vnode, newCh[i])
  {
    Partners(Slots(old0), newCh, 0, |old0| - 1, 0, |newCh| - 1, None)
  }

  /** After `o` has been patched into `v`, every element with the empty text has a text node:
      such an element was created, or already had one when its text was the empty one. */
  predicate FullAfter(o: Live, v: VNode)
    decreases v
  {
    v.tag.Some? ==>
      match v.children
      case Absent => v.text == Some("") ==> o.vnode.text == Some("") && !o.bare
      case Present(vs) =>
        o.vnode.children.Present? ==>
          var pairs := AllPartners(o.kids, vs);
          forall i | i in pairs :: FullAfter(o.kids[pairs[i]], vs[i])
  }

  /** The element of the old node stays, and so, at any depth, do those of old children whose
      key a new child has that is the same vnode. */
  predicate Reused(o: Live, l: Live)
    decreases l
  {
    l.elm == o.elm &&
    (o.vnode.children.Present? && l.vnode.children.Present? ==>
      forall i, j | 0 <= i < |l.kids| && 0 <= j < |o.kids| && l.kids[i].vnode.key.Some? &&
                    SameVnode(o.kids[j].vnode, l.kids[i].vnode) ::
        Reused(o.kids[j], l.kids[i]))
  }

  // ------------------------------------------------------------ nothing that fits is left over

  predicate Waits(oldCh: seq<Option<Live>>, oldStart: int, oldEnd: int, j: int) {
    oldStart <= j <= oldEnd && 0 <= j < |oldCh| && oldCh[j].Some?
  }

  function NameAt(oldCh: seq<Option<Live>>, j: int): Option<string> {
    if 0 <= j < |oldCh| && oldCh[j].Some? && oldCh[j].value.vnode.key.Some?
    then Some(oldCh[j].value.vnode.key.value.name) else None
  }

  /** Two slots with keys have different names. */
  predicate UniqueSlots(oldCh: seq<Option<Live>>) {
    forall j, k | 0 <= j < k < |oldCh| && NameAt(oldCh, j).Some? :: NameAt(oldCh, j) != NameAt(oldCh, k)
  }

  /** Keyed slots outside the range have gone to new children outside the range. */
  ghost predicate GoneSlots(oldCh: seq<Option<Live>>, newCh: seq<VNode>, oldStart: int, oldEnd: int, newStart: int, newEnd: int) {
    forall j | 0 <= j < |oldCh| && !(oldStart <= j <= oldEnd) && NameAt(oldCh, j).Some? ::
      exists i | 0 <= i < |newCh| && !(newStart <= i <= newEnd) :: newCh[i].key == oldCh[j].value.vnode.key
  }

  /** The index has every keyed slot that waits. */
  ghost predicate Indexed(oldCh: seq<Option<Live>>, oldStart: int, oldEnd: int, index: map<string, int>) {
    forall j | Waits(oldCh, oldStart, oldEnd, j) && NameAt(oldCh, j).Some? ::
      NameAt(oldCh, j).value in index && index[NameAt(oldCh, j).value] == j
  }

  ghost predicate Walk(oldCh: seq<Option<Live>>, newCh: seq<VNode>, oldStart: int, oldEnd: int, newStart: int, newEnd: int,
                       index: Option<map<string, int>>) {
    && InRange(oldCh, newCh, oldStart, oldEnd, newStart, newEnd)
    && UniqueNames(newCh) && UniqueSlots(oldCh) && GoneSlots(oldCh, newCh, oldStart, oldEnd, newStart, newEnd)
    && (if index.Some? then Indexed(oldCh, oldStart, oldEnd, index.value)
        else forall j | oldStart <= j <= oldEnd :: oldCh[j].Some?)
  }

  /** Partners wait, no two new children have the same one, and what fits a new child without
      a partner is the partner of another. */
  ghost predicate Proper(pairs: map<int, int>, oldCh: seq<Option<Live>>, newCh: seq<VNode>,
                         oldStart: int, oldEnd: int, newStart: int, newEnd: int)
    requires 0 <= newStart && newEnd < |newCh|
  {
    (forall i | i in pairs :: newStart <= i <= newEnd && Waits(oldCh, oldStart, oldEnd, pairs[i])) &&
    (forall i, k | i in pairs && k in pairs && pairs[i] == pairs[k] :: i == k) &&
    (forall i, j | newStart <= i <= newEnd && i !in pairs && Waits(oldCh, oldStart, oldEnd, j) && Fits(oldCh, j, newCh[i]) ::
      Taken(pairs, j))
  }

  predicate Taken(pairs: map<int, int>, j: int) {
    exists i | i in pairs :: pairs[i] == j
  }

  lemma SameVnodeSymmetric(a: VNode, b: VNode)
    ensures SameVnode(a, b) <==> SameVnode(b, a)
  {
  }

  lemma {:induction false} FirstSameFinds(node: VNode, oldCh: seq<Option<Live>>, start: int, end: int)
    requires 0 <= start <= end <= |oldCh|
    ensures var k := FirstSame(node, oldCh, start, end);
            match k
            case None => forall j | start <= j < end :: !Fits(oldCh, j, node)
            case Some(j) => start <= j < end && Fits(oldCh, j, node)
    decreases end - start
  {
    if start < end {
      if oldCh[start].Some? {
        SameVnodeSymmetric(node, oldCh[start].value.vnode);
      }
      hide SameVnode;
      FirstSameFinds(node, oldCh, start + 1, end);
    }
  }

  lemma {:induction false} KeyIndexFinds(oldCh: seq<Option<Live>>, beginIdx: int, endIdx: int)
    requires 0 <= beginIdx <= endIdx + 1 <= |oldCh| && UniqueSlots(oldCh)
    ensures Indexed(oldCh, beginIdx, endIdx, KeyIndex(oldCh, beginIdx, endIdx))
    decreases endIdx - beginIdx + 1
  {
    if endIdx >= beginIdx {
      KeyIndexFinds(oldCh, beginIdx, endIdx - 1);
      forall j | Waits(oldCh, beginIdx, endIdx, j) && NameAt(oldCh, j).Some?
        ensures NameAt(oldCh, j).value in KeyIndex(oldCh, beginIdx, endIdx)
        ensures KeyIndex(oldCh, beginIdx, endIdx)[NameAt(oldCh, j).value] == j
      {
        if j < endIdx {
          assert Waits(oldCh, beginIdx, endIdx - 1, j) && NameAt(oldCh, j) != NameAt(oldCh, endIdx);
        }
      }
    }
  }

  /** One slot and one new child have been paired and leave the walk. */
  lemma PairProper(rest: map<int, int>, oldCh: seq<Option<Live>>, oldCh': seq<Option<Live>>, newCh: seq<VNode>,
                   oldStart: int, oldEnd: int, newStart: int, newEnd: int,
                   oldStart': int, oldEnd': int, newStart': int, newEnd': int, i: int, k: int)
    requires 0 <= newStart <= newEnd < |newCh|
    requires (i == newStart && newStart' == newStart + 1 && newEnd' == newEnd) ||
             (i == newEnd && newStart' == newStart && newEnd' == newEnd - 1)
    requires Proper(rest, oldCh', newCh, oldStart', oldEnd', newStart', newEnd')
    requires Waits(oldCh, oldStart, oldEnd, k)
    requires forall j :: Waits(oldCh', oldStart', oldEnd', j) <==> Waits(oldCh, oldStart, oldEnd, j) && j != k
    requires |oldCh'| == |oldCh| && forall j | Waits(oldCh', oldStart', oldEnd', j) :: oldCh'[j] == oldCh[j]
    ensures Proper(rest[i := k], oldCh, newCh, oldStart, oldEnd, newStart, newEnd)
  {
    var pairs := rest[i := k];
    assert i !in rest;
    forall n | n in pairs ensures newStart <= n <= newEnd && Waits(oldCh, oldStart, oldEnd, pairs[n]) {
      if n != i {
        assert n in rest && Waits(oldCh', oldStart', oldEnd', rest[n]);
      }
    }
    forall n, m | n in pairs && m in pairs && pairs[n] == pairs[m] ensures n == m {
      assert n != i ==> n in rest && Waits(oldCh', oldStart', oldEnd', rest[n]);
      assert m != i ==> m in rest && Waits(oldCh', oldStart', oldEnd', rest[m]);
    }
    forall n, j | newStart <= n <= newEnd && n !in pairs && Waits(oldCh, oldStart, oldEnd, j) && Fits(oldCh, j, newCh[n])
      ensures Taken(pairs, j)
    {
      if j == k {
        assert pairs[i] == j;
      } else {
        assert Fits(oldCh', j, newCh[n]) && Taken(rest, j);
        var m :| m in rest && rest[m] == j;
        assert pairs[m] == j;
      }
    }
  }

  /** A new child that nothing waiting fits has no partner. */
  lemma NoPairProper(pairs: map<int, int>, oldCh: seq<Option<Live>>, newCh: seq<VNode>,
                     oldStart: int, oldEnd: int, newStart: int, newEnd: int)
    requires 0 <= newStart <= newEnd < |newCh| && Proper(pairs, oldCh, newCh, oldStart, oldEnd, newStart + 1, newEnd)
    requires forall j | Waits(oldCh, oldStart, oldEnd, j) :: !Fits(oldCh, j, newCh[newStart])
    ensures Proper(pairs, oldCh, newCh, oldStart, oldEnd, newStart, newEnd)
  {
  }

  lemma SkipProper(pairs: map<int, int>, oldCh: seq<Option<Live>>, newCh: seq<VNode>, oldStart: int, oldEnd: int,
                   oldStart': int, oldEnd': int, newStart: int, newEnd: int)
    requires 0 <= newStart && newEnd < |newCh| && Proper(pairs, oldCh, newCh, oldStart', oldEnd', newStart, newEnd)
    requires forall j :: Waits(oldCh, oldStart', oldEnd', j) <==> Waits(oldCh, oldStart, oldEnd, j)
    ensures Proper(pairs, oldCh, newCh, oldStart, oldEnd, newStart, newEnd)
  {
  }

  /** The walk goes on without slot `k` and new child `i`, which are the same vnode. */
  lemma WalkOn(oldCh: seq<Option<Live>>, newCh: seq<VNode>, oldStart: int, oldEnd: int, newStart: int, newEnd: int,
               index: Option<map<string, int>>, oldStart': int, oldEnd': int, newStart': int, newEnd': int, i: int, k: int)
    requires Walk(oldCh, newCh, oldStart, oldEnd, newStart, newEnd, index)
    requires InRange(oldCh, newCh, oldStart', oldEnd', newStart', newEnd')
    requires newStart <= i <= newEnd && newStart <= newStart' && newEnd' <= newEnd && !(newStart' <= i <= newEnd')
    requires Fits(oldCh, k, newCh[i])
    requires (k == oldStart && oldStart' == oldStart + 1 && oldEnd' == oldEnd) ||
             (k == oldEnd && oldStart' == oldStart && oldEnd' == oldEnd - 1)
    ensures Walk(oldCh, newCh, oldStart', oldEnd', newStart', newEnd', index)
  {
    forall j | 0 <= j < |oldCh| && !(oldStart' <= j <= oldEnd') && NameAt(oldCh, j).Some?
      ensures exists n | 0 <= n < |newCh| && !(newStart' <= n <= newEnd') :: newCh[n].key == oldCh[j].value.vnode.key
    {
      if j == k {
        assert newCh[i].key == oldCh[j].value.vnode.key;
      } else {
        var n :| 0 <= n < |newCh| && !(newStart <= n <= newEnd) && newCh[n].key == oldCh[j].value.vnode.key;
        assert !(newStart' <= n <= newEnd');
      }
    }
  }

  /** Stepping over a slot that has been moved away. */
  lemma WalkSkip(oldCh: seq<Option<Live>>, newCh: seq<VNode>, oldStart: int, oldEnd: int, newStart: int, newEnd: int,
                 index: Option<map<string, int>>, oldStart': int, oldEnd': int, k: int)
    requires Walk(oldCh, newCh, oldStart, oldEnd, newStart, newEnd, index)
    requires InRange(oldCh, newCh, oldStart', oldEnd', newStart, newEnd)
    requires 0 <= k < |oldCh| && oldCh[k].None?
    requires (k == oldStart && oldStart' == oldStart + 1 && oldEnd' == oldEnd) ||
             (k == oldEnd && oldStart' == oldStart && oldEnd' == oldEnd - 1)
    ensures Walk(oldCh, newCh, oldStart', oldEnd', newStart, newEnd, index)
  {
    forall j | 0 <= j < |oldCh| && !(oldStart' <= j <= oldEnd') && NameAt(oldCh, j).Some?
      ensures exists n | 0 <= n < |newCh| && !(newStart <= n <= newEnd) :: newCh[n].key == oldCh[j].value.vnode.key
    {
      assert !(oldStart <= j <= oldEnd);
    }
  }

  /** The walk goes on after its last branch, with an index. */
  lemma WalkMoved(oldCh: seq<Option<Live>>, newCh: seq<VNode>, oldStart: int, oldEnd: int, newStart: int, newEnd: int,
                  index: Option<map<string, int>>, found: map<string, int>, k: int)
    requires Walk(oldCh, newCh, oldStart, oldEnd, newStart, newEnd, index) && newStart <= newEnd && oldStart <= oldEnd
    requires found == IndexFor(oldCh, oldStart, oldEnd, index)
    ensures Indexed(oldCh, oldStart, oldEnd, found)
    ensures Walk(oldCh, newCh, oldStart, oldEnd, newStart + 1, newEnd, Some(found))
    ensures 0 <= k < |oldCh| ==> Walk(oldCh[k := None], newCh, oldStart, oldEnd, newStart + 1, newEnd, Some(found))
  {
    if index.None? {
      KeyIndexFinds(oldCh, oldStart, oldEnd);
    }
    hide KeyIndex, SameVnode;
    assert GoneSlots(oldCh, newCh, oldStart, oldEnd, newStart + 1, newEnd) by {
      forall j | 0 <= j < |oldCh| && !(oldStart <= j <= oldEnd) && NameAt(oldCh, j).Some?
        ensures exists n | 0 <= n < |newCh| && !(newStart + 1 <= n <= newEnd) :: newCh[n].key == oldCh[j].value.vnode.key
      {
        var n :| 0 <= n < |newCh| && !(newStart <= n <= newEnd) && newCh[n].key == oldCh[j].value.vnode.key;
        assert !(newStart + 1 <= n <= newEnd);
      }
    }
    if 0 <= k < |oldCh| {
      SlotMoved(oldCh, newCh, oldStart, oldEnd, newStart + 1, newEnd, found, k);
    }
  }

  lemma SlotMoved(oldCh: seq<Option<Live>>, newCh: seq<VNode>, oldStart: int, oldEnd: int, newStart: int, newEnd: int,
                  found: map<string, int>, k: int)
    requires Walk(oldCh, newCh, oldStart, oldEnd, newStart, newEnd, Some(found)) && 0 <= k < |oldCh|
    ensures Walk(oldCh[k := None], newCh, oldStart, oldEnd, newStart, newEnd, Some(found))
  {
    var oldCh' := oldCh[k := None];
    assert forall j :: NameAt(oldCh', j) == if j == k then None else NameAt(oldCh, j);
    assert forall j | 0 <= j < |oldCh| && j != k :: oldCh'[j] == oldCh[j];
  }

  /** The candidate waits, and if none fits, nothing does. */
  lemma CandidateFinds(oldCh: seq<Option<Live>>, newCh: seq<VNode>, oldStart: int, oldEnd: int, newStart: int, newEnd: int,
                       index: Option<map<string, int>>)
    requires Walk(oldCh, newCh, oldStart, oldEnd, newStart, newEnd, index) && newStart <= newEnd && oldStart <= oldEnd
    requires !Fits(oldCh, oldEnd, newCh[newStart])
    ensures var k := Candidate(oldCh, newCh[newStart], oldStart, oldEnd, IndexFor(oldCh, oldStart, oldEnd, index));
            if k.Some? && Fits(oldCh, k.value, newCh[newStart]) then Waits(oldCh, oldStart, oldEnd, k.value)
            else forall j | Waits(oldCh, oldStart, oldEnd, j) :: !Fits(oldCh, j, newCh[newStart])
  {
    var v := newCh[newStart];
    var found := IndexFor(oldCh, oldStart, oldEnd, index);
    WalkMoved(oldCh, newCh, oldStart, oldEnd, newStart, newEnd, index, found, -1);
    if v.key.Some? {
      KeyedCandidate(oldCh, newCh, oldStart, oldEnd, newStart, newEnd, index, found);
    } else {
      FirstSameFinds(v, oldCh, oldStart, oldEnd);
    }
  }

  lemma KeyedCandidate(oldCh: seq<Option<Live>>, newCh: seq<VNode>, oldStart: int, oldEnd: int, newStart: int, newEnd: int,
                       index: Option<map<string, int>>, found: map<string, int>)
    requires Walk(oldCh, newCh, oldStart, oldEnd, newStart, newEnd, index) && newStart <= newEnd && oldStart <= oldEnd
    requires newCh[newStart].key.Some? && Indexed(oldCh, oldStart, oldEnd, found)
    ensures var name := newCh[newStart].key.value.name;
            if name in found && Fits(oldCh, found[name], newCh[newStart]) then Waits(oldCh, oldStart, oldEnd, found[name])
            else forall j | Waits(oldCh, oldStart, oldEnd, j) :: !Fits(oldCh, j, newCh[newStart])
  {
    var v := newCh[newStart];
    forall j | Fits(oldCh, j, v) ensures Waits(oldCh, oldStart, oldEnd, j) && NameAt(oldCh, j) == Some(v.key.value.name) {
      if !(oldStart <= j <= oldEnd) {
        GoneDoesNotFit(oldCh, newCh, oldStart, oldEnd, newStart, newEnd, index, j);
      }
    }
  }

  lemma GoneDoesNotFit(oldCh: seq<Option<Live>>, newCh: seq<VNode>, oldStart: int, oldEnd: int, newStart: int, newEnd: int,
                       index: Option<map<string, int>>, j: int)
    requires Walk(oldCh, newCh, oldStart, oldEnd, newStart, newEnd, index) && newStart <= newEnd
    requires 0 <= j < |oldCh| && !(oldStart <= j <= oldEnd) && NameAt(oldCh, j).Some?
    ensures oldCh[j].value.vnode.key != newCh[newStart].key
  {
    var n :| 0 <= n < |newCh| && !(newStart <= n <= newEnd) && newCh[n].key == oldCh[j].value.vnode.key;
  }

  lemma {:induction false} PartnersProper(
    oldCh: seq<Option<Live>>, newCh: seq<VNode>, oldStart: int, oldEnd: int, newStart: int, newEnd: int,
    index: Option<map<string, int>>)
    requires InRange(oldCh, newCh, oldStart, oldEnd, newStart, newEnd)
    requires Walk(oldCh, newCh, oldStart, oldEnd, newStart, newEnd, index)
    ensures Proper(Partners(oldCh, newCh, oldStart, oldEnd, newStart, newEnd, index), oldCh, newCh, oldStart, oldEnd, newStart, newEnd)
    decreases oldEnd - oldStart + newEnd - newStart
  {
    hide Proper, Walk, Fits, IndexFor, Candidate;
    if oldStart > oldEnd || newStart > newEnd {
      NothingProper(oldCh, newCh, oldStart, oldEnd, newStart, newEnd);
    } else if oldCh[oldStart].None? {
      WalkSkip(oldCh, newCh, oldStart, oldEnd, newStart, newEnd, index, oldStart + 1, oldEnd, oldStart);
      PartnersProper(oldCh, newCh, oldStart + 1, oldEnd, newStart, newEnd, index);
      SkipProper(Partners(oldCh, newCh, oldStart + 1, oldEnd, newStart, newEnd, index), oldCh, newCh,
                 oldStart, oldEnd, oldStart + 1, oldEnd, newStart, newEnd);
    } else if oldCh[oldEnd].None? {
      WalkSkip(oldCh, newCh, oldStart, oldEnd, newStart, newEnd, index, oldStart, oldEnd - 1, oldEnd);
      PartnersProper(oldCh, newCh, oldStart, oldEnd - 1, newStart, newEnd, index);
      SkipProper(Partners(oldCh, newCh, oldStart, oldEnd - 1, newStart, newEnd, index), oldCh, newCh,
                 oldStart, oldEnd, oldStart, oldEnd - 1, newStart, newEnd);
    } else if Fits(oldCh, oldStart, newCh[newStart]) {
      PairedEnds(oldCh, newCh, oldStart, oldEnd, newStart, newEnd, index, oldStart + 1, oldEnd, newStart + 1, newEnd, newStart, oldStart);
    } else if Fits(oldCh, oldEnd, newCh[newEnd]) {
      PairedEnds(oldCh, newCh, oldStart, oldEnd, newStart, newEnd, index, oldStart, oldEnd - 1, newStart, newEnd - 1, newEnd, oldEnd);
    } else if Fits(oldCh, oldStart, newCh[newEnd]) {
      PairedEnds(oldCh, newCh, oldStart, oldEnd, newStart, newEnd, index, oldStart + 1, oldEnd, newStart, newEnd - 1, newEnd, oldStart);
    } else if Fits(oldCh, oldEnd, newCh[newStart]) {
      PairedEnds(oldCh, newCh, oldStart, oldEnd, newStart, newEnd, index, oldStart, oldEnd - 1, newStart + 1, newEnd, newStart, oldEnd);
    } else {
      LookedUp(oldCh, newCh, oldStart, oldEnd, newStart, newEnd, index);
    }
  }

  lemma NothingProper(oldCh: seq<Option<Live>>, newCh: seq<VNode>, oldStart: int, oldEnd: int, newStart: int, newEnd: int)
    requires InRange(oldCh, newCh, oldStart, oldEnd, newStart, newEnd) && (oldStart > oldEnd || newStart > newEnd)
    ensures Proper(map[], oldCh, newCh, oldStart, oldEnd, newStart, newEnd)
  {
  }

  lemma {:induction false} PairedEnds(
    oldCh: seq<Option<Live>>, newCh: seq<VNode>, oldStart: int, oldEnd: int, newStart: int, newEnd: int,
    index: Option<map<string, int>>, oldStart': int, oldEnd': int, newStart': int, newEnd': int, i: int, k: int)
    requires InRange(oldCh, newCh, oldStart, oldEnd, newStart, newEnd)
    requires Walk(oldCh, newCh, oldStart, oldEnd, newStart, newEnd, index) && oldStart <= oldEnd && newStart <= newEnd
    requires newStart <= i <= newEnd && Fits(oldCh, k, newCh[i]) && oldStart <= k <= oldEnd
    requires (k == oldStart && oldStart' == oldStart + 1 && oldEnd' == oldEnd) ||
             (k == oldEnd && oldStart' == oldStart && oldEnd' == oldEnd - 1)
    requires (i == newStart && newStart' == newStart + 1 && newEnd' == newEnd) ||
             (i == newEnd && newStart' == newStart && newEnd' == newEnd - 1)
    ensures Proper(Partners(oldCh, newCh, oldStart', oldEnd', newStart', newEnd', index)[i := k],
                   oldCh, newCh, oldStart, oldEnd, newStart, newEnd)
    decreases oldEnd - oldStart + newEnd - newStart, 0
  {
    hide Proper, Partners, UniqueNames, UniqueSlots, GoneSlots, Indexed, SameVnode;
    WalkOn(oldCh, newCh, oldStart, oldEnd, newStart, newEnd, index, oldStart', oldEnd', newStart', newEnd', i, k);
    PartnersProper(oldCh, newCh, oldStart', oldEnd', newStart', newEnd', index);
    PairProper(Partners(oldCh, newCh, oldStart', oldEnd', newStart', newEnd', index), oldCh, oldCh, newCh,
               oldStart, oldEnd, newStart, newEnd, oldStart', oldEnd', newStart', newEnd', i, k);
  }

  lemma {:induction false} LookedUp(
    oldCh: seq<Option<Live>>, newCh: seq<VNode>, oldStart: int, oldEnd: int, newStart: int, newEnd: int,
    index: Option<map<string, int>>)
    requires InRange(oldCh, newCh, oldStart, oldEnd, newStart, newEnd)
    requires Walk(oldCh, newCh, oldStart, oldEnd, newStart, newEnd, index) && oldStart <= oldEnd && newStart <= newEnd
    requires !Fits(oldCh, oldEnd, newCh[newStart])
    ensures var found := IndexFor(oldCh, oldStart, oldEnd, index);
            var k := Candidate(oldCh, newCh[newStart], oldStart, oldEnd, found);
            var pairs := if k.Some? && Fits(oldCh, k.value, newCh[newStart]) then
                Partners(oldCh[k.value := None], newCh, oldStart, oldEnd, newStart + 1, newEnd, Some(found))[newStart := k.value]
              else Partners(oldCh, newCh, oldStart, oldEnd, newStart + 1, newEnd, Some(found));
            Proper(pairs, oldCh, newCh, oldStart, oldEnd, newStart, newEnd)
    decreases oldEnd - oldStart + newEnd - newStart, 0
  {
    hide Proper, Partners, Walk, Candidate, IndexFor, SameVnode;
    var found := IndexFor(oldCh, oldStart, oldEnd, index);
    var k := Candidate(oldCh, newCh[newStart], oldStart, oldEnd, found);
    CandidateFinds(oldCh, newCh, oldStart, oldEnd, newStart, newEnd, index);
    WalkMoved(oldCh, newCh, oldStart, oldEnd, newStart, newEnd, index, found, if k.Some? then k.value else -1);
    if k.Some? && Fits(oldCh, k.value, newCh[newStart]) {
      var oldCh' := oldCh[k.value := None];
      PartnersProper(oldCh', newCh, oldStart, oldEnd, newStart + 1, newEnd, Some(found));
      PairProper(Partners(oldCh', newCh, oldStart, oldEnd, newStart + 1, newEnd, Some(found)), oldCh, oldCh', newCh,
                 oldStart, oldEnd, newStart, newEnd, oldStart, oldEnd, newStart + 1, newEnd, newStart, k.value);
    } else {
      PartnersProper(oldCh, newCh, oldStart, oldEnd, newStart + 1, newEnd, Some(found));
      NoPairProper(Partners(oldCh, newCh, oldStart, oldEnd, newStart + 1, newEnd, Some(found)), oldCh, newCh,
                   oldStart, oldEnd, newStart, newEnd);
    }
  }

  function VNodesOf(ls: seq<Live>): seq<VNode> {
    seq(|ls|, i requires 0 <= i < |ls| => ls[i].vnode)
  }

  /** With unique keys on both sides a new child has no partner only if every old child that
      fits it is the partner of another one, and a keyed one has the old child with its key. */
  lemma NoneLeftOver(old0: seq<Live>, newCh: seq<VNode>)
    requires UniqueNames(VNodesOf(old0)) && UniqueNames(newCh)
    ensures var pairs := AllPartners(old0, newCh);
            (forall i, k | i in pairs && k in pairs && pairs[i] == pairs[k] :: i == k) &&
            (forall i, j | 0 <= i < |newCh| && 0 <= j < |old0| && SameVnode(old0[j].vnode, newCh[i]) ::
              (i in pairs || Taken(pairs, j)) && (newCh[i].key.Some? ==> i in pairs && pairs[i] == j))
  {
    var slots := Slots(old0);
    StartWalk(old0, newCh);
    PartnersProper(slots, newCh, 0, |old0| - 1, 0, |newCh| - 1, None);
    var pairs := AllPartners(old0, newCh);
    forall i, j | 0 <= i < |newCh| && 0 <= j < |old0| && SameVnode(old0[j].vnode, newCh[i])
      ensures (i in pairs || Taken(pairs, j)) && (newCh[i].key.Some? ==> i in pairs && pairs[i] == j)
    {
      assert Waits(slots, 0, |old0| - 1, j) && Fits(slots, j, newCh[i]);
      hide Partners;
      assert i !in pairs ==> Taken(pairs, j);
      if newCh[i].key.Some? {
        KeyedPartner(old0, newCh, pairs, i, j);
      }
    }
  }

  lemma KeyedPartner(old0: seq<Live>, newCh: seq<VNode>, pairs: map<int, int>, i: int, j: int)
    requires UniqueNames(VNodesOf(old0)) && UniqueNames(newCh) && 0 <= i < |newCh| && 0 <= j < |old0|
    requires forall n | n in pairs :: 0 <= n < |newCh| && 0 <= pairs[n] < |old0| && SameVnode(old0[pairs[n]].vnode, newCh[n])
    requires newCh[i].key.Some? && SameVnode(old0[j].vnode, newCh[i]) && (i in pairs || Taken(pairs, j))
    ensures i in pairs && pairs[i] == j
  {
    if i in pairs {
      var vs := VNodesOf(old0);
      assert vs[pairs[i]].key == vs[j].key;
    }
  }

  lemma StartWalk(old0: seq<Live>, newCh: seq<VNode>)
    requires UniqueNames(VNodesOf(old0)) && UniqueNames(newCh)
    ensures Walk(Slots(old0), newCh, 0, |old0| - 1, 0, |newCh| - 1, None)
  {
    var slots, vs := Slots(old0), VNodesOf(old0);
    forall j, k | 0 <= j < k < |slots| && NameAt(slots, j).Some? ensures NameAt(slots, j) != NameAt(slots, k) {
      assert vs[j] == old0[j].vnode && vs[k] == old0[k].vnode;
    }
  }
}
