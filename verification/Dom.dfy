/** The browser document that the patcher edits: a heap of nodes with ordered
    child lists and parent pointers, and the node operations of
    `frontend/js/vue.js` that change it in place. */
module Dom {

  datatype Option<+T> = None | Some(value: T)

  type Id = nat

  datatype Kind = Element(tag: string) | Text | Comment

  datatype Node = Node(kind: Kind, data: string, kids: seq<Id>, parent: Option<Id>)

  type Heap = map<Id, Node>

  ghost predicate Distinct<T>(s: seq<T>) {
    forall i, j :: 0 <= i < j < |s| ==> s[i] != s[j]
  }

  /** The list without the first occurrence of `x`. */
  function Without(s: seq<Id>, x: Id): (r: seq<Id>)
    ensures x !in s ==> r == s
  {
    if s == [] then []
    else if s[0] == x then s[1..]
    else [s[0]] + Without(s[1..], x)
  }

  /** The list with `x` put in front of `ref`, or at the end when there is no `ref` in it. */
  function Before(s: seq<Id>, x: Id, ref: Option<Id>): (r: seq<Id>)
    ensures ref.None? ==> r == s + [x]
  {
    if s == [] then [x]
    else if ref == Some(s[0]) then [x] + s
    else [s[0]] + Before(s[1..], x, ref)
  }

  lemma {:induction false} WithoutAt(s: seq<Id>, k: nat)
    requires k < |s| && Distinct(s)
    ensures Without(s, s[k]) == s[..k] + s[k + 1..]
  {
    if k == 0 {
    } else {
      WithoutAt(s[1..], k - 1);
      assert s[1..][..k - 1] == s[1..k] && s[1..][k..] == s[k + 1..];
      assert s[..k] == [s[0]] + s[1..k];
      assert s[0] != s[k] && Without(s, s[k]) == [s[0]] + (s[1..k] + s[k + 1..]);
    }
  }

  lemma {:induction false} BeforeAt(s: seq<Id>, x: Id, k: nat)
    requires k < |s| && Distinct(s)
    ensures Before(s, x, Some(s[k])) == s[..k] + [x] + s[k..]
  {
    if k == 0 {
      assert s[..0] + [x] + s[0..] == [x] + s;
    } else {
      BeforeAt(s[1..], x, k - 1);
      assert s[1..][..k - 1] == s[1..k];
      assert s[..k] == [s[0]] + s[1..k];
    }
  }

  /** `n` taken out of its parent's child list, if it has a parent. */
  function Detached(h: Heap, n: Id): (r: Heap)
    requires n in h
    ensures r.Keys == h.Keys
  {
    match h[n].parent
    case None => h
    case Some(p) =>
      if p !in h || p == n then h
      else h[p := h[p].(kids := Without(h[p].kids, n))][n := h[n].(parent := None)]
  }

  /** `n`, which has no parent, put into the child list of `p`. */
  function Attached(h: Heap, p: Id, n: Id, ref: Option<Id>): (r: Heap)
    requires p in h && n in h && p != n
    ensures r.Keys == h.Keys
  {
    h[p := h[p].(kids := Before(h[p].kids, n, ref))][n := h[n].(parent := Some(p))]
  }

  /** Every child of `p` loses its parent pointer. */
  function Orphaned(h: Heap, p: Id): (r: Heap)
    requires p in h
    ensures r.Keys == h.Keys
  {
    map id | id in h ::
      if id == p then h[id].(kids := [])
      else if id in h[p].kids then h[id].(parent := None)
      else h[id]
  }

  class Document {
    var nodes: Heap
    var next: Id

    ghost predicate Valid()
      reads this
    {
      forall id :: id in nodes ==> id < next
    }

    constructor ()
      ensures Valid() && nodes == map[]
    {
      nodes, next := map[], 0;
    }

    method Create(kind: Kind, data: string) returns (id: Id)
      requires Valid()
      modifies this
      ensures Valid()
      ensures id !in old(nodes)
      ensures nodes == old(nodes)[id := Node(kind, data, [], None)]
    {
      id := next;
      nodes := nodes[id := Node(kind, data, [], None)];
      next := next + 1;
    }

    method CreateElement(tag: string) returns (id: Id)
      requires Valid()
      modifies this
      ensures Valid() && id !in old(nodes)
      ensures nodes == old(nodes)[id := Node(Element(tag), "", [], None)]
    {
      id := Create(Element(tag), "");
    }

    method CreateTextNode(data: string) returns (id: Id)
      requires Valid()
      modifies this
      ensures Valid() && id !in old(nodes)
      ensures nodes == old(nodes)[id := Node(Text, data, [], None)]
    {
      id := Create(Text, data);
    }

    method CreateComment(data: string) returns (id: Id)
      requires Valid()
      modifies this
      ensures Valid() && id !in old(nodes)
      ensures nodes == old(nodes)[id := Node(Comment, data, [], None)]
    {
      id := Create(Comment, data);
    }

    /** A node that already has a parent leaves it first. */
    method InsertBefore(parent: Id, node: Id, ref: Option<Id>)
      requires Valid() && parent in nodes && node in nodes && parent != node
      requires ref != Some(node)
      modifies this
      ensures Valid()
      ensures nodes == Attached(Detached(old(nodes), node), parent, node, ref)
      ensures nodes[node].parent == Some(parent)
      ensures old(nodes)[node].parent == None ==>
        nodes[parent].kids == Before(old(nodes)[parent].kids, node, ref) &&
        forall id | id in nodes && id != node && id != parent :: nodes[id] == old(nodes)[id]
    {
      nodes := Detached(nodes, node);
      nodes := Attached(nodes, parent, node, ref);
    }

    method AppendChild(parent: Id, node: Id)
      requires Valid() && parent in nodes && node in nodes && parent != node
      modifies this
      ensures Valid()
      ensures nodes == Attached(Detached(old(nodes), node), parent, node, None)
      ensures nodes[node].parent == Some(parent) && nodes[parent].kids != [] && nodes[parent].kids[|nodes[parent].kids| - 1] == node
    {
      nodes := Detached(nodes, node);
      nodes := Attached(nodes, parent, node, None);
    }

    method RemoveNode(node: Id)
      requires Valid() && node in nodes
      modifies this
      ensures Valid()
      ensures nodes == Detached(old(nodes), node)
      ensures var p := old(nodes)[node].parent;
              p.Some? && p.value in old(nodes) && p.value != node ==>
                nodes[node].parent == None && nodes[p.value].kids == Without(old(nodes)[p.value].kids, node) &&
                forall id | id in nodes && id != node && id != p.value :: nodes[id] == old(nodes)[id]
    {
      nodes := Detached(nodes, node);
    }

    /** The node after `node` in its parent's child list. */
    function NextSibling(node: Id): (r: Option<Id>)
      requires node in nodes
      reads this
    {
      match nodes[node].parent
      case None => None
      case Some(p) => if p in nodes then After(nodes[p].kids, node) else None
    }

    /** On an element this drops all children and, for a non-empty string, leaves
        one text node; on a text or comment node it replaces the data. */
    method SetTextContent(node: Id, text: string)
      requires Valid() && node in nodes
      modifies this
      ensures Valid()
      ensures !old(nodes)[node].kind.Element? ==>
        nodes == old(nodes)[node := old(nodes)[node].(data := text)]
      ensures old(nodes)[node].kind.Element? && text == "" ==> nodes == Orphaned(old(nodes), node)
      ensures old(nodes)[node].kind.Element? && text != "" ==>
        exists t :: t !in old(nodes) && nodes ==
          Attached(Orphaned(old(nodes), node)[t := Node(Text, text, [], None)], node, t, None)
      ensures old(nodes)[node].kind.Element? ==>
        |nodes[node].kids| == (if text == "" then 0 else 1) &&
        forall t | t in nodes[node].kids :: t in nodes && nodes[t] == Node(Text, text, [], Some(node))
      ensures !old(nodes)[node].kind.Element? ==> nodes[node].data == text && nodes[node].kids == old(nodes)[node].kids
    {
      if nodes[node].kind.Element? {
        nodes := Orphaned(nodes, node);
        if text != "" {
          var t := CreateTextNode(text);
          nodes := Attached(nodes, node, t, None);
        }
      } else {
        nodes := nodes[node := nodes[node].(data := text)];
      }
    }
  }

  function After(s: seq<Id>, x: Id): (r: Option<Id>) {
    if |s| < 2 then None
    else if s[0] == x then Some(s[1])
    else After(s[1..], x)
  }

  lemma {:induction false} AfterAt(s: seq<Id>, k: nat)
    requires k < |s| && Distinct(s)
    ensures After(s, s[k]) == if k + 1 < |s| then Some(s[k + 1]) else None
  {
    if k != 0 {
      AfterAt(s[1..], k - 1);
    }
  }
}
