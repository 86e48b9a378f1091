/** Virtual nodes and the test that decides whether an old one may be patched
    into a new one (`sameVnode`). */
module VNodes {
  import opened Dom

  /** A key is a string or a number; both index the key map by their property name. */
  datatype Key = StrKey(name: string) | NumKey(name: string)

  datatype Attrs = Attrs(typ: Option<string>)

  datatype Data = Data(attrs: Option<Attrs>)

  datatype VNode = VNode(
    tag: Option<string>,
    key: Option<Key>,
    data: Option<Data>,
    children: Children,
    text: Option<string>,
    isComment: bool)

  /** The `children` field: undefined, or an array. */
  datatype Children = Absent | Present(list: seq<VNode>)

  datatype TypeAttr = Missing | Undefined | Typed(name: string)

  const TEXT_INPUT_TYPES := {"text", "number", "password", "search", "email", "tel", "url"}

  function InputType(v: VNode): TypeAttr {
    match v.data
    case None => Missing
    case Some(d) =>
      match d.attrs
      case None => Missing
      case Some(a) => if a.typ.Some? then Typed(a.typ.value) else Undefined
  }

  predicate IsTextInputType(t: TypeAttr) {
    t.Typed? && t.name in TEXT_INPUT_TYPES
  }

  predicate SameInputType(a: VNode, b: VNode) {
    a.tag != Some("input") ||
    InputType(a) == InputType(b) ||
    (IsTextInputType(InputType(a)) && IsTextInputType(InputType(b)))
  }

  predicate SameVnode(a: VNode, b: VNode) {
    && a.key == b.key
    && a.tag == b.tag
    && a.isComment == b.isComment
    && a.data.Some? == b.data.Some?
    && SameInputType(a, b)
  }

  /** Same vnodes have the same key, tag and kind; inputs are the same only if they have the same
      type or are both text inputs. */
  lemma SameVnodeExactly(a: VNode, b: VNode)
    ensures a.tag != Some("input") ==>
      (SameVnode(a, b) <==> a.key == b.key && a.tag == b.tag && a.isComment == b.isComment && a.data.Some? == b.data.Some?)
    ensures a.tag == Some("input") ==>
      (SameVnode(a, b) <==>
        a.key == b.key && a.tag == b.tag && a.isComment == b.isComment && a.data.Some? == b.data.Some? &&
        (InputType(a) == InputType(b) ||
         (InputType(a).Typed? && InputType(b).Typed? &&
          {InputType(a).name, InputType(b).name} <= {"text", "number", "password", "search", "email", "tel", "url"})))
  {
  }

  /** It is an equivalence. */
  lemma SameVnodeIsEquivalence(a: VNode, b: VNode, c: VNode)
    ensures SameVnode(a, a) && (SameVnode(a, b) ==> SameVnode(b, a)) && (SameVnode(a, b) && SameVnode(b, c) ==> SameVnode(a, c))
  {
  }

  /** What `createElement` and `createTextVNode` build: a node without a tag has
      text and no children, and no node has both text and children. */
  predicate Plain(v: VNode) {
    && (v.tag.None? ==> v.text.Some? && v.children.Absent?)
    && (v.text.Some? ==> v.children.Absent?)
    && (v.children.Present? ==> forall c | c in v.children.list :: Plain(c))
  }

  /** No two siblings have keys that are the same property name; `checkDuplicateKeys`
      warns about anything else. */
  predicate UniqueNames(vs: seq<VNode>) {
    forall i, j :: 0 <= i < j < |vs| && vs[i].key.Some? && vs[j].key.Some? ==>
      vs[i].key.value.name != vs[j].key.value.name
  }

  predicate UniqueKeys(v: VNode) {
    v.children.Present? ==>
      UniqueNames(v.children.list) && forall c | c in v.children.list :: UniqueKeys(c)
  }

  predicate Patchable(v: VNode) {
    Plain(v) && UniqueKeys(v)
  }
}
