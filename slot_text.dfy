/** The text of a default slot, as `getSlotChildrenText` in src/hooks/index.ts
    computes it from the virtual nodes the slot renders. */
module SlotText {

  /** The shapes a virtual node's `children` can take, as far as the text
      extraction distinguishes them. */
  datatype Children =
    | Absent                          // `null` or `undefined`
    | Str(text: string)               // a string (possibly empty)
    | DefaultSlot(rendered: seq<VNode>) // an object with a `default` slot function; holds what it renders
    | Unhandled                       // anything else, e.g. an array of child nodes

  datatype VNode = VNode(children: Children)

  /** What one node contributes to the text: the concatenation of the string
      children reachable from it through default slots. */
  function NodeText(n: VNode): (r: string)
    ensures r == Concat(NodeLeaves(n))
    decreases n
  {
    match n.children
    case Absent => ""
    case Str(s) =>
      assert Concat([s]) == s + Concat([]);
      s
    case DefaultSlot(ns) => Text(ns)
    case Unhandled => ""
  }

  /** The nodes' contributions, joined with the empty separator: the
      concatenation of all string children reachable through default slots,
      in document order. */
  function Text(ns: seq<VNode>): (r: string)
    ensures r == Concat(Leaves(ns))
    decreases ns
  {
    if ns == [] then ""
    else
      ConcatAppend(NodeLeaves(ns[0]), Leaves(ns[1..]));
      NodeText(ns[0]) + Text(ns[1..])
  }

  /** The text of a node list is a monoid homomorphism from lists of nodes to strings. */
  lemma {:induction false} TextAppend(xs: seq<VNode>, ys: seq<VNode>)
    ensures Text(xs + ys) == Text(xs) + Text(ys)
    decreases |xs|
  {
    if xs == [] {
      assert xs + ys == ys;
    } else {
      assert (xs + ys)[1..] == xs[1..] + ys;
      TextAppend(xs[1..], ys);
    }
  }

  /** The per-node rules, seen through a one-node list. */
  lemma TextSingleton(n: VNode)
    ensures Text([n]) == NodeText(n)
    ensures n.children.Absent? || n.children.Unhandled? ==> Text([n]) == ""
    ensures n.children.Str? ==> Text([n]) == n.children.text
    ensures n.children.DefaultSlot? ==> Text([n]) == Text(n.children.rendered)
  {
    assert [n][1..] == [];
  }

  /** Wrapping a node list in a component whose default slot renders it
      leaves the text unchanged, at any position in the list. */
  lemma {:induction false} TextWrap(xs: seq<VNode>, ns: seq<VNode>, ys: seq<VNode>)
    ensures Text(xs + [VNode(DefaultSlot(ns))] + ys) == Text(xs + ns + ys)
  {
    TextAppend(xs + [VNode(DefaultSlot(ns))], ys);
    TextAppend(xs, [VNode(DefaultSlot(ns))]);
    TextSingleton(VNode(DefaultSlot(ns)));
    TextAppend(xs + ns, ys);
    TextAppend(xs, ns);
  }

  /** A node without children, with empty string children or with a shape the
      extraction does not handle can be removed without changing the text. */
  lemma {:induction false} TextSkipsSilent(xs: seq<VNode>, n: VNode, ys: seq<VNode>)
    requires n.children.Absent? || n.children.Unhandled? || n.children == Str("")
    ensures Text(xs + [n] + ys) == Text(xs + ys)
  {
    TextAppend(xs + [n], ys);
    TextAppend(xs, [n]);
    TextSingleton(n);
    TextAppend(xs, ys);
  }

  /** Reference definition: the string children reachable through default
      slots, in document order. */
  function Leaves(ns: seq<VNode>): (leaves: seq<string>)
    decreases ns
  {
    if ns == [] then [] else NodeLeaves(ns[0]) + Leaves(ns[1..])
  }

  function NodeLeaves(n: VNode): (leaves: seq<string>)
    decreases n
  {
    match n.children
    case Str(s) => [s]
    case DefaultSlot(inner) => Leaves(inner)
    case _ => []
  }

  /** Joins strings with the empty separator. */
  function Concat(ss: seq<string>): (joined: string) {
    if ss == [] then "" else ss[0] + Concat(ss[1..])
  }

  lemma {:induction false} ConcatAppend(a: seq<string>, b: seq<string>)
    ensures Concat(a + b) == Concat(a) + Concat(b)
  {
    if a == [] {
      assert a + b == b;
    } else {
      assert (a + b)[1..] == a[1..] + b;
      ConcatAppend(a[1..], b);
    }
  }
}
