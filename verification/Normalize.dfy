/** Flattening of children lists (`normalizeArrayChildren`): nested arrays, primitive
    values and nodes become one list of nodes in which texts are never adjacent. */
module Normalize {
  import opened Dom
  import opened VNodes
  import Decimal

  /** A child in a children array; `vlist` marks an array that v-for made. */
  datatype Child =
    | Nullish
    | Flag(value: bool)
    | Prim(text: string)
    | Node(node: VNode)
    | Arr(items: seq<Child>, vlist: bool)

  predicate IsTextNode(v: VNode) {
    v.text.Some? && !v.isComment
  }

  function TextVNode(text: string): VNode {
    VNode(None, None, None, Absent, Some(text), false)
  }

  // ------------------------------------------------------------ the flattened input

  /** The index path of a nested array, as the keys of its nodes show it. */
  function Nested(nestedIndex: Option<string>, i: nat): string {
    (if nestedIndex.Some? then nestedIndex.value else "") + "_" + Decimal.Numeral(i)
  }

  /** The default key of an element without key in a v-for list. */
  function Keyed(v: VNode, vlist: bool, nestedIndex: Option<string>, i: nat): VNode {
    if vlist && v.tag.Some? && v.key.None? && nestedIndex.Some?
    then v.(key := Some(StrKey("__vlist" + nestedIndex.value + "_" + Decimal.Numeral(i) + "__")))
    else v
  }

  /** The nodes of one child, in order, a primitive value being a text. */
  function Leaves(c: Child, vlist: bool, nestedIndex: Option<string>, i: nat): seq<VNode>
    decreases c, 0
  {
    match c
    case Nullish => []
    case Flag(_) => []
    case Prim(text) => [TextVNode(text)]
    case Node(v) => [Keyed(v, vlist, nestedIndex, i)]
    case Arr(items, nestedVlist) => LeavesOf(items, nestedVlist, Some(Nested(nestedIndex, i)), |items|)
  }

  /** The nodes of the first `n` children. */
  function LeavesOf(items: seq<Child>, vlist: bool, nestedIndex: Option<string>, n: nat): seq<VNode>
    requires n <= |items|
    decreases items, n
  {
    if n == 0 then []
    else LeavesOf(items, vlist, nestedIndex, n - 1) + Leaves(items[n - 1], vlist, nestedIndex, n - 1)
  }

  /** A node of the input, unchanged, where it stands: in which kind of list, under which
      indices of lists, and at which index. */
  datatype Place = Place(node: VNode, vlist: bool, path: seq<nat>, i: nat) {
    function Spot(): seq<nat> {
      path + [i]
    }
  }

  /** The nodes of the first `n` children where they stand; nothing and booleans give none. */
  function PlacesOf(items: seq<Child>, vlist: bool, path: seq<nat>, n: nat): seq<Place>
    requires n <= |items|
    decreases items, n
  {
    if n == 0 then []
    else
      PlacesOf(items, vlist, path, n - 1) +
      match items[n - 1]
      case Nullish => []
      case Flag(_) => []
      case Prim(text) => [Place(TextVNode(text), vlist, path, n - 1)]
      case Node(v) => [Place(v, vlist, path, n - 1)]
      case Arr(inner, innerVlist) => PlacesOf(inner, innerVlist, path + [n - 1], |inner|)
  }

  function NodesAt(places: seq<Place>): seq<VNode> {
    seq(|places|, k requires 0 <= k < |places| => places[k].node)
  }

  /** The places whose nodes are not texts. */
  function NonTexts(places: seq<Place>): seq<Place> {
    if places == [] then []
    else
      var last := places[|places| - 1];
      NonTexts(places[..|places| - 1]) + if IsTextNode(last.node) then [] else [last]
  }

  /** A default key is due: to an element without key in a nested v-for list. */
  predicate LacksKey(p: Place) {
    p.node.key.None? && p.node.tag.Some? && p.vlist && p.path != []
  }

  /** The node of the place, unchanged but for a default key where that is due. */
  predicate StandsFor(v: VNode, p: Place) {
    v == p.node.(key := v.key) &&
    v.key == if LacksKey(p) then Some(StrKey(VlistKey(PathText(p.Spot())))) else p.node.key
  }

  /** The result shows the nodes of the places and, between them, their texts. */
  ghost predicate Keeps(res: seq<VNode>, places: seq<Place>) {
    var out, plain, standing := Shown(res), Shown(NodesAt(places)), NonTexts(places);
    out.rest == plain.rest && |out.nodes| == |plain.nodes| == |standing| &&
    forall k | 0 <= k < |standing| ::
      out.nodes[k].0 == plain.nodes[k].0 && plain.nodes[k].1 == standing[k].node && StandsFor(out.nodes[k].1, standing[k])
  }

  // ------------------------------------------------------------ what a list of nodes shows

  /** The nodes that are not texts, each with the text before it, and the text after all. */
  datatype Content = Content(nodes: seq<(string, VNode)>, rest: string)

  function Shown(vs: seq<VNode>): Content {
    if vs == [] then Content([], "") else Then(Shown(vs[..|vs| - 1]), vs[|vs| - 1])
  }

  function Then(c: Content, v: VNode): Content {
    if IsTextNode(v) then c.(rest := c.rest + v.text.value) else Content(c.nodes + [(c.rest, v)], "")
  }

  lemma ShownOneMore(vs: seq<VNode>, v: VNode)
    ensures Shown(vs + [v]) == Then(Shown(vs), v)
  {
    assert (vs + [v])[..|vs|] == vs;
  }

  function Join(a: Content, b: Content): Content {
    if b.nodes == [] then Content(a.nodes, a.rest + b.rest)
    else Content(a.nodes + [(a.rest + b.nodes[0].0, b.nodes[0].1)] + b.nodes[1..], b.rest)
  }

  lemma {:induction false} ShownJoin(before: seq<VNode>, vs: seq<VNode>)
    ensures Shown(before + vs) == Join(Shown(before), Shown(vs))
    decreases |vs|
  {
    if vs == [] {
      assert before + vs == before;
      assert Shown(before).rest + "" == Shown(before).rest;
    } else {
      var front, last := vs[..|vs| - 1], vs[|vs| - 1];
      ShownJoin(before, front);
      assert before + vs == (before + front) + [last];
      ShownOneMore(before + front, last);
      JoinThen(Shown(before), Shown(front), last);
    }
  }

  lemma JoinThen(a: Content, b: Content, v: VNode)
    ensures Then(Join(a, b), v) == Join(a, Then(b, v))
  {
    if IsTextNode(v) {
      assert (a.rest + b.rest) + v.text.value == a.rest + (b.rest + v.text.value);
    } else if b.nodes != [] {
      assert (b.nodes + [(b.rest, v)])[1..] == b.nodes[1..] + [(b.rest, v)];
    }
  }

  /** What is shown after a list depends on the list only through what it shows. */
  lemma ShownAfter(before: seq<VNode>, before': seq<VNode>, vs: seq<VNode>)
    requires Shown(before) == Shown(before')
    ensures Shown(before + vs) == Shown(before' + vs)
  {
    ShownJoin(before, vs);
    ShownJoin(before', vs);
  }

  // ------------------------------------------------------------ the result

  predicate NoAdjacentTexts(vs: seq<VNode>) {
    forall i | 0 < i < |vs| :: !(IsTextNode(vs[i - 1]) && IsTextNode(vs[i]))
  }

  predicate EmptyText(v: VNode) {
    v.text == Some("") && !v.isComment
  }

  predicate HasEmptyText(vs: seq<VNode>) {
    exists v | v in vs :: EmptyText(v)
  }

  predicate EndsInText(vs: seq<VNode>) {
    vs != [] && IsTextNode(vs[|vs| - 1])
  }

  /** Some node of the input, at any depth, is an empty text. */
  predicate GivesEmptyText(items: seq<Child>) {
    exists c | c in items ::
      (c.Node? && EmptyText(c.node)) || (c.Arr? && GivesEmptyText(c.items))
  }

  /** The list so far with one more node at its end, merged if both are texts. */
  function Pushed(res: seq<VNode>, v: VNode): seq<VNode> {
    if EndsInText(res) && IsTextNode(v)
    then res[..|res| - 1] + [TextVNode(res[|res| - 1].text.value + v.text.value)]
    else res + [v]
  }

  lemma PushedShows(res: seq<VNode>, v: VNode)
    ensures Shown(Pushed(res, v)) == Then(Shown(res), v) == Shown(res + [v])
  {
    ShownOneMore(res, v);
    if EndsInText(res) && IsTextNode(v) {
      var front, last := res[..|res| - 1], res[|res| - 1];
      assert res == front + [last];
      ShownOneMore(front, last);
      ShownOneMore(front, TextVNode(last.text.value + v.text.value));
      hide Shown;
      assert (Shown(front).rest + last.text.value) + v.text.value == Shown(front).rest + (last.text.value + v.text.value);
    }
  }

  lemma PushedTexts(res: seq<VNode>, v: VNode)
    requires NoAdjacentTexts(res)
    ensures NoAdjacentTexts(Pushed(res, v))
    ensures HasEmptyText(Pushed(res, v)) ==> HasEmptyText(res) || (!EndsInText(res) && EmptyText(v))
  {
    if EndsInText(res) && IsTextNode(v) {
      var front, last := res[..|res| - 1], res[|res| - 1];
      assert last in res;
      assert forall x | x in Pushed(res, v) :: x in front || x == TextVNode(last.text.value + v.text.value);
    }
  }

  /** `normalizeArrayChildren`, for a list under these indices. */
  method NormalizeArrayChildren(children: seq<Child>, vlist: bool, nestedIndex: Option<string>, ghost path: seq<nat>)
    returns (res: seq<VNode>)
    requires nestedIndex == IndexOf(path)
    ensures Keeps(res, PlacesOf(children, vlist, path, |children|))
    ensures Shown(res) == Shown(LeavesOf(children, vlist, nestedIndex, |children|))
    ensures NoAdjacentTexts(res)
    ensures HasEmptyText(res) ==> GivesEmptyText(children)
    decreases children
  {
    hide Shown, NoAdjacentTexts, HasEmptyText, GivesEmptyText, Leaves, LeavesOf, Keeps, PlacesOf, PathText;
    res := [];
    EmptyList(children, vlist, nestedIndex);
    for i := 0 to |children|
      invariant Shown(res) == Shown(LeavesOf(children, vlist, nestedIndex, i))
      invariant NoAdjacentTexts(res)
      invariant HasEmptyText(res) ==> GivesEmptyText(children)
    {
      ghost var before, leaves := res, Leaves(children[i], vlist, nestedIndex, i);
      var c := children[i];
      match c {
        case Nullish => NothingMore(before, c, vlist, nestedIndex, i);
        case Flag(_) => NothingMore(before, c, vlist, nestedIndex, i);
        case Arr(items, nestedVlist) =>
          if |items| > 0 {
            NestedPath(path, i);
            var nodes := NormalizeArrayChildren(items, nestedVlist, Some(Nested(nestedIndex, i)), path + [i]);
            res := Appended(res, nodes);
            NestedNodes(before, c, nodes, children, vlist, nestedIndex, i);
          } else {
            NothingMore(before, c, vlist, nestedIndex, i);
          }
        case Prim(text) =>
          PushedShows(res, TextVNode(text));
          PushedTexts(res, TextVNode(text));
          PrimLeaves(before, text, vlist, nestedIndex, i);
          if EndsInText(res) {
            res := Pushed(res, TextVNode(text));
          } else if text != "" {
            res := res + [TextVNode(text)];
          }
        case Node(v) =>
          PushedShows(res, Keyed(v, vlist, nestedIndex, i));
          PushedTexts(res, Keyed(v, vlist, nestedIndex, i));
          NodeLeaves(c, children, vlist, nestedIndex, i);
          if EndsInText(res) && IsTextNode(v) {
            res := res[..|res| - 1] + [TextVNode(res[|res| - 1].text.value + v.text.value)];
          } else {
            res := res + [Keyed(v, vlist, nestedIndex, i)];
          }
      }
      ShownAfter(before, LeavesOf(children, vlist, nestedIndex, i), leaves);
      OneMoreChild(children, vlist, nestedIndex, i);
    }
    LeavesArePlaces(children, vlist, path, |children|);
    ShownKeyed(res, PlacesOf(children, vlist, path, |children|));
  }

  /** The nested index as the source hands it on. */
  function IndexOf(path: seq<nat>): Option<string> {
    if path == [] then None else Some(PathText(path))
  }

  lemma NestedPath(path: seq<nat>, i: nat)
    ensures IndexOf(path + [i]) == Some(Nested(IndexOf(path), i))
  {
    PathTextOneMore(path, i);
  }

  function KeyedAll(places: seq<Place>): seq<VNode> {
    seq(|places|, k requires 0 <= k < |places| =>
      Keyed(places[k].node, places[k].vlist, IndexOf(places[k].path), places[k].i))
  }

  lemma KeyedConcat(a: seq<Place>, b: seq<Place>)
    ensures KeyedAll(a + b) == KeyedAll(a) + KeyedAll(b)
  {
    hide Keyed, IndexOf;
  }

  lemma {:induction false} LeavesArePlaces(items: seq<Child>, vlist: bool, path: seq<nat>, n: nat)
    requires n <= |items|
    ensures LeavesOf(items, vlist, IndexOf(path), n) == KeyedAll(PlacesOf(items, vlist, path, n))
    decreases items, n, 0
  {
    if n > 0 {
      LeavesArePlaces(items, vlist, path, n - 1);
      ChildIsPlaces(items[n - 1], items, vlist, path, n - 1);
      hide IndexOf, Nested, PathText, KeyedAll, Leaves;
      var front := PlacesOf(items, vlist, path, n - 1);
      var last := PlacesOf(items, vlist, path, n)[|front|..];
      assert PlacesOf(items, vlist, path, n) == front + last;
      KeyedConcat(front, last);
    }
  }

  /** The places of one child. */
  lemma {:induction false} ChildIsPlaces(c: Child, items: seq<Child>, vlist: bool, path: seq<nat>, i: nat)
    requires i < |items| && items[i] == c
    ensures Leaves(c, vlist, IndexOf(path), i)
         == KeyedAll(PlacesOf(items, vlist, path, i + 1)[|PlacesOf(items, vlist, path, i)|..])
    decreases items, i, 1
  {
    var front, all := PlacesOf(items, vlist, path, i), PlacesOf(items, vlist, path, i + 1);
    match c
    case Nullish => assert all[|front|..] == [];
    case Flag(_) => assert all[|front|..] == [];
    case Prim(text) => assert all[|front|..] == [Place(TextVNode(text), vlist, path, i)];
    case Node(v) => assert all[|front|..] == [Place(v, vlist, path, i)];
    case Arr(inner, innerVlist) =>
      LeavesArePlaces(inner, innerVlist, path + [i], |inner|);
      NestedPath(path, i);
      hide IndexOf, Nested, PathText, KeyedAll;
      assert all[|front|..] == PlacesOf(inner, innerVlist, path + [i], |inner|);
  }

  lemma KeyedStands(p: Place)
    ensures StandsFor(Keyed(p.node, p.vlist, IndexOf(p.path), p.i), p)
    ensures IsTextNode(Keyed(p.node, p.vlist, IndexOf(p.path), p.i)) <==> IsTextNode(p.node)
    ensures IsTextNode(p.node) ==> Keyed(p.node, p.vlist, IndexOf(p.path), p.i).text == p.node.text
  {
    PathTextOneMore(p.path, p.i);
    if p.path != [] && p.vlist && p.node.tag.Some? && p.node.key.None? {
      KeyedByPath(p.node, p.path, p.i);
    }
    hide PathText, Decimal.Numeral;
  }

  /** What keyed leaves show is what their places hold. */
  lemma {:induction false} ShownKeyed(res: seq<VNode>, places: seq<Place>)
    requires Shown(res) == Shown(KeyedAll(places))
    ensures Keeps(res, places)
    decreases |places|
  {
    hide StandsFor, Keyed, IndexOf, PathText;
    if places != [] {
      var front, last := places[..|places| - 1], places[|places| - 1];
      ShownKeyed(KeyedAll(front), front);
      assert KeyedAll(places) == KeyedAll(front) + [Keyed(last.node, last.vlist, IndexOf(last.path), last.i)];
      assert NodesAt(places) == NodesAt(front) + [last.node];
      hide Shown, Keeps, KeyedAll, NodesAt, NonTexts;
      OneMoreKept(res, front, last, places);
    }
  }

  lemma OneMoreKept(res: seq<VNode>, front: seq<Place>, last: Place, places: seq<Place>)
    requires places == front + [last] && Keeps(KeyedAll(front), front)
    requires KeyedAll(places) == KeyedAll(front) + [Keyed(last.node, last.vlist, IndexOf(last.path), last.i)]
    requires NodesAt(places) == NodesAt(front) + [last.node] && Shown(res) == Shown(KeyedAll(places))
    ensures Keeps(res, places)
  {
    assert places[..|front|] == front;
    var v := Keyed(last.node, last.vlist, IndexOf(last.path), last.i);
    KeyedStands(last);
    ShownOneMore(KeyedAll(front), v);
    ShownOneMore(NodesAt(front), last.node);
    hide StandsFor, Keyed, IndexOf, PathText, Shown, KeyedAll, NodesAt, IsTextNode;
    assert NonTexts(places) == NonTexts(front) + if IsTextNode(last.node) then [] else [last];
  }

  /** The place is in or below one of the first `n` children of the list under `path`. */
  predicate Under(p: Place, path: seq<nat>, n: nat) {
    |path| < |p.Spot()| && path == p.Spot()[..|path|] && p.Spot()[|path|] < n
  }

  ghost predicate AllDiffer(places: seq<Place>, path: seq<nat>, n: nat) {
    (forall k | 0 <= k < |places| :: Under(places[k], path, n)) &&
    (forall k, m | 0 <= k < m < |places| :: places[k].Spot() != places[m].Spot())
  }

  /** All of them are in or below child `i`. */
  ghost predicate AllIn(places: seq<Place>, path: seq<nat>, i: nat) {
    forall k | 0 <= k < |places| :: |path| < |places[k].Spot()| && places[k].Spot()[|path|] == i
  }

  lemma DifferJoin(a: seq<Place>, b: seq<Place>, path: seq<nat>, n: nat)
    requires AllDiffer(a, path, n) && AllDiffer(b, path, n + 1) && AllIn(b, path, n)
    ensures AllDiffer(a + b, path, n + 1)
  {
  }

  lemma DifferBelow(places: seq<Place>, path: seq<nat>, i: nat, n: nat)
    requires AllDiffer(places, path + [i], n)
    ensures AllDiffer(places, path, i + 1) && AllIn(places, path, i)
  {
    forall k | 0 <= k < |places| ensures Under(places[k], path, i + 1) && places[k].Spot()[|path|] == i {
      assert Under(places[k], path + [i], n);
      assert places[k].Spot()[..|path| + 1][..|path|] == path;
      assert places[k].Spot()[..|path| + 1][|path|] == i;
    }
  }

  /** No two places of an input are the same. */
  lemma {:induction false} PlacesDiffer(items: seq<Child>, vlist: bool, path: seq<nat>, n: nat)
    requires n <= |items|
    ensures AllDiffer(PlacesOf(items, vlist, path, n), path, n)
    decreases items, n, 0
  {
    hide AllDiffer, AllIn, Under;
    if n > 0 {
      PlacesDiffer(items, vlist, path, n - 1);
      ChildDiffers(items, vlist, path, n - 1);
      hide PlacesOf;
      DifferSplit(PlacesOf(items, vlist, path, n - 1), PlacesOf(items, vlist, path, n), path, n - 1);
    } else {
      assert PlacesOf(items, vlist, path, 0) == [];
      NothingDiffers(path);
    }
  }

  lemma NothingDiffers(path: seq<nat>)
    ensures AllDiffer([], path, 0)
  {
  }

  lemma DifferSplit(front: seq<Place>, all: seq<Place>, path: seq<nat>, n: nat)
    requires front <= all && AllDiffer(front, path, n) && AllDiffer(all[|front|..], path, n + 1)
    requires AllIn(all[|front|..], path, n)
    ensures AllDiffer(all, path, n + 1)
  {
    hide AllDiffer, AllIn;
    assert all == front + all[|front|..];
    DifferJoin(front, all[|front|..], path, n);
  }

  lemma {:induction false} ChildDiffers(items: seq<Child>, vlist: bool, path: seq<nat>, i: nat)
    requires i < |items|
    ensures var front, all := PlacesOf(items, vlist, path, i), PlacesOf(items, vlist, path, i + 1);
            front <= all && AllDiffer(all[|front|..], path, i + 1) && AllIn(all[|front|..], path, i)
    decreases items, i, 1
  {
    var front, all := PlacesOf(items, vlist, path, i), PlacesOf(items, vlist, path, i + 1);
    var rest := all[|front|..];
    match items[i]
    case Nullish => assert rest == [];
    case Flag(_) => assert rest == [];
    case Prim(text) => LeafDiffers(Place(TextVNode(text), vlist, path, i), path, rest);
    case Node(v) => LeafDiffers(Place(v, vlist, path, i), path, rest);
    case Arr(inner, innerVlist) =>
      assert rest == PlacesOf(inner, innerVlist, path + [i], |inner|);
      PlacesDiffer(inner, innerVlist, path + [i], |inner|);
      hide PlacesOf, AllDiffer, AllIn;
      DifferBelow(rest, path, i, |inner|);
  }

  lemma LeafDiffers(p: Place, path: seq<nat>, places: seq<Place>)
    requires p.path == path && places == [p]
    ensures AllDiffer(places, path, p.i + 1) && AllIn(places, path, p.i)
  {
  }

  /** New keys of one result are different. */
  lemma NewKeysDiffer(items: seq<Child>, vlist: bool, k: nat, m: nat, v: VNode, w: VNode)
    requires var places := PlacesOf(items, vlist, [], |items|);
             k < m < |places| && LacksKey(places[k]) && LacksKey(places[m]) && StandsFor(v, places[k]) && StandsFor(w, places[m])
    ensures v.key != w.key
  {
    var places := PlacesOf(items, vlist, [], |items|);
    PlacesDiffer(items, vlist, [], |items|);
    var p, q := places[k].Spot(), places[m].Spot();
    if v.key == w.key {
      hide PathText;
      VlistKeysDiffer(PathText(p), PathText(q));
      PathsDiffer(p, q);
    }
  }

  lemma EmptyList(children: seq<Child>, vlist: bool, nestedIndex: Option<string>)
    ensures LeavesOf(children, vlist, nestedIndex, 0) == [] && NoAdjacentTexts([]) && !HasEmptyText([])
  {
  }

  lemma OneMoreChild(children: seq<Child>, vlist: bool, nestedIndex: Option<string>, i: nat)
    requires i < |children|
    ensures LeavesOf(children, vlist, nestedIndex, i + 1)
         == LeavesOf(children, vlist, nestedIndex, i) + Leaves(children[i], vlist, nestedIndex, i)
  {
  }

  lemma NothingMore(res: seq<VNode>, c: Child, vlist: bool, nestedIndex: Option<string>, i: nat)
    requires c.Nullish? || c.Flag? || (c.Arr? && c.items == [])
    ensures Shown(res) == Shown(res + Leaves(c, vlist, nestedIndex, i))
  {
    assert res + [] == res;
  }

  lemma PrimLeaves(res: seq<VNode>, text: string, vlist: bool, nestedIndex: Option<string>, i: nat)
    ensures Leaves(Prim(text), vlist, nestedIndex, i) == [TextVNode(text)]
    ensures text == "" ==> Shown(res + [TextVNode(text)]) == Shown(res)
  {
    ShownOneMore(res, TextVNode(text));
    assert Shown(res).rest + "" == Shown(res).rest;
  }

  lemma NodeLeaves(c: Child, children: seq<Child>, vlist: bool, nestedIndex: Option<string>, i: nat)
    requires c.Node? && c in children
    ensures Leaves(c, vlist, nestedIndex, i) == [Keyed(c.node, vlist, nestedIndex, i)]
    ensures EmptyText(Keyed(c.node, vlist, nestedIndex, i)) ==> GivesEmptyText(children)
  {
  }

  lemma NestedNodes(res: seq<VNode>, c: Child, nodes: seq<VNode>, children: seq<Child>,
                    vlist: bool, nestedIndex: Option<string>, i: nat)
    requires c.Arr? && c in children
    requires Shown(nodes) == Shown(LeavesOf(c.items, c.vlist, Some(Nested(nestedIndex, i)), |c.items|))
    ensures Shown(res + nodes) == Shown(res + Leaves(c, vlist, nestedIndex, i))
    ensures GivesEmptyText(c.items) ==> GivesEmptyText(children)
  {
    ShownJoin(res, nodes);
    ShownJoin(res, Leaves(c, vlist, nestedIndex, i));
  }

  lemma TextsJoin(front: seq<VNode>, nodes: seq<VNode>)
    requires NoAdjacentTexts(front) && NoAdjacentTexts(nodes) && front != [] && nodes != []
    requires IsTextNode(front[|front| - 1]) == IsTextNode(nodes[0])
    ensures NoAdjacentTexts(front + nodes[1..])
  {
    var all := front + nodes[1..];
    forall i | 0 < i < |all| ensures !(IsTextNode(all[i - 1]) && IsTextNode(all[i])) {
      if i > |front| {
        assert all[i - 1] == nodes[i - |front|] && all[i] == nodes[i - |front| + 1];
      }
    }
  }

  lemma EmptyTextsJoin(front: seq<VNode>, nodes: seq<VNode>)
    requires nodes != [] && HasEmptyText(front + nodes[1..])
    ensures HasEmptyText(front) || HasEmptyText(nodes)
  {
    var v :| v in front + nodes[1..] && EmptyText(v);
    assert v in front || v in nodes;
  }

  lemma FirstEmpty(nodes: seq<VNode>)
    requires nodes != [] && EmptyText(nodes[0])
    ensures HasEmptyText(nodes)
  {
    assert nodes[0] in nodes;
  }

  /** Appending a normalized list: its first node is merged if it is a text after a text. */
  method Appended(res: seq<VNode>, nodes: seq<VNode>) returns (all: seq<VNode>)
    requires NoAdjacentTexts(res) && NoAdjacentTexts(nodes)
    ensures NoAdjacentTexts(all) && Shown(all) == Shown(res + nodes)
    ensures HasEmptyText(all) ==> HasEmptyText(res) || HasEmptyText(nodes)
  {
    if nodes == [] {
      assert res + nodes == res;
      return res;
    }
    all := Pushed(res, nodes[0]) + nodes[1..];
    assert IsTextNode(Pushed(res, nodes[0])[|Pushed(res, nodes[0])| - 1]) == IsTextNode(nodes[0]);
    hide Shown, NoAdjacentTexts, HasEmptyText, Pushed;
    PushedShows(res, nodes[0]);
    PushedTexts(res, nodes[0]);
    TextsJoin(Pushed(res, nodes[0]), nodes);
    if HasEmptyText(all) {
      EmptyTextsJoin(Pushed(res, nodes[0]), nodes);
      if EmptyText(nodes[0]) {
        FirstEmpty(nodes);
      }
    }
    ShownAfter(Pushed(res, nodes[0]), res + [nodes[0]], nodes[1..]);
    assert (res + [nodes[0]]) + nodes[1..] == res + nodes;
  }

  // ------------------------------------------------------------ default keys

  /** The path of indices to a child, as nested indices spell it. */
  function PathText(path: seq<nat>): string {
    if path == [] then "" else PathText(path[..|path| - 1]) + "_" + Decimal.Numeral(path[|path| - 1])
  }

  lemma PathTextOneMore(path: seq<nat>, i: nat)
    ensures PathText(path + [i]) == PathText(path) + "_" + Decimal.Numeral(i)
  {
    assert (path + [i])[..|path|] == path;
  }

  lemma LastSegment(s: string, d: string, s': string, d': string)
    requires s + "_" + d == s' + "_" + d' && '_' !in d && '_' !in d'
    ensures s == s' && d == d'
  {
    var t := s + "_" + d;
    assert t[|s|] == '_' && t[|s'|] == '_';
    assert forall k | |s| < k < |t| :: t[k] == d[k - |s| - 1];
    assert forall k | |s'| < k < |t| :: t[k] == d'[k - |s'| - 1];
    assert |s| == |s'|;
    assert s == t[..|s|] && s' == t[..|s'|] && d == t[|s| + 1..] && d' == t[|s'| + 1..];
  }

  lemma NoUnderscore(n: nat)
    ensures '_' !in Decimal.Numeral(n)
  {
  }

  lemma {:induction false} PathsDiffer(path: seq<nat>, path': seq<nat>)
    requires PathText(path) == PathText(path')
    ensures path == path'
    decreases |path|
  {
    hide Decimal.Numeral;
    if path != [] && path' != [] {
      var front, last := path[..|path| - 1], path[|path| - 1];
      var front', last' := path'[..|path'| - 1], path'[|path'| - 1];
      NoUnderscore(last);
      NoUnderscore(last');
      LastSegment(PathText(front), Decimal.Numeral(last), PathText(front'), Decimal.Numeral(last'));
      PathsDiffer(front, front');
      Decimal.NumeralsDiffer(last, last');
      assert path == front + [last] && path' == front' + [last'];
    }
  }

  /** The default key at a path. */
  function VlistKey(path: string): string {
    "__vlist" + path + "__"
  }

  lemma VlistKeysDiffer(path: string, path': string)
    requires VlistKey(path) == VlistKey(path')
    ensures path == path'
  {
    assert path == VlistKey(path)[7..|VlistKey(path)| - 2];
    assert path' == VlistKey(path')[7..|VlistKey(path')| - 2];
  }

  /** Elements at different places of nested v-for lists get different default keys. */
  lemma DefaultKeysDiffer(v: VNode, v': VNode, path: seq<nat>, i: nat, path': seq<nat>, i': nat)
    requires v.tag.Some? && v.key.None? && v'.tag.Some? && v'.key.None?
    requires Keyed(v, true, Some(PathText(path)), i).key == Keyed(v', true, Some(PathText(path')), i').key
    ensures path == path' && i == i'
  {
    PathTextOneMore(path, i);
    PathTextOneMore(path', i');
    KeyedByPath(v, path, i);
    KeyedByPath(v', path', i');
    hide Keyed, PathText, Decimal.Numeral;
    VlistKeysDiffer(PathText(path + [i]), PathText(path' + [i']));
    PathsDiffer(path + [i], path' + [i']);
    SameEnds(path, i, path', i');
  }

  lemma KeyedByPath(v: VNode, path: seq<nat>, i: nat)
    requires v.tag.Some? && v.key.None?
    ensures Keyed(v, true, Some(PathText(path)), i).key == Some(StrKey(VlistKey(PathText(path + [i]))))
  {
    PathTextOneMore(path, i);
    hide PathText, Decimal.Numeral;
    assert "__vlist" + PathText(path) + "_" + Decimal.Numeral(i) + "__"
        == "__vlist" + (PathText(path) + "_" + Decimal.Numeral(i)) + "__";
  }

  lemma SameEnds(path: seq<nat>, i: nat, path': seq<nat>, i': nat)
    requires path + [i] == path' + [i']
    ensures path == path' && i == i'
  {
    var p := path + [i];
    assert p[|p| - 1] == i && (path' + [i'])[|p| - 1] == i';
    assert p[..|p| - 1] == path && (path' + [i'])[..|p| - 1] == path';
  }
}
