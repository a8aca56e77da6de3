/** The block cache's forest of nodes: node records, subtrees, and what cutting a set of subtrees
    out of the forest does.  Nodes refer to one another by address, as the source does by pointer.
 */
module BlockTree {
  import opened Basics
  import opened Blocks

  type Ptr = nat

  datatype Kind = Linked | Single | Virtual

  /** `key` is the hash the node was entered under; only the root of the single blocks has none. */
  datatype Node = Node(key: Option<Hash>, head: Head, parent: Option<Ptr>, children: set<Ptr>, kind: Kind,
                       valid: seq<string>, active: seq<string>, pending: seq<string>)

  type Nodes = map<Ptr, Node>

  /** The hash of the node's block; a virtual node's block was never hashed. */
  function HeadHash(n: Node): Hash {
    if n.kind.Virtual? then NO_HASH else HashOf(n.head)
  }

  function Level(n: Node): nat {
    if n.key.None? then 0 else 1 + Depth(n.key.value)
  }

  /** A former root: linked, without a parent, no longer the root. */
  predicate Retired(nodes: Nodes, root: Ptr, p: Ptr)
    requires p in nodes
  {
    nodes[p].kind.Linked? && nodes[p].parent.None? && p != root
  }

  /** The node's parent lists it as a child and lies strictly higher. */
  predicate ParentOk(nodes: Nodes, x: Ptr)
    requires x in nodes
  {
    nodes[x].parent.Some? ==>
      && nodes[x].parent.value in nodes
      && x in nodes[nodes[x].parent.value].children
      && Level(nodes[nodes[x].parent.value]) < Level(nodes[x])
  }

  /** A child points back; only a former root still lists a child, its successor, that does not. */
  predicate ChildOk(nodes: Nodes, root: Ptr, p: Ptr, c: Ptr)
    requires p in nodes
  {
    && c in nodes
    && (|| nodes[c].parent == Some(p)
        || (nodes[c].parent.None? && nodes[c].kind.Linked? && Retired(nodes, root, p)))
  }

  /** Parent and child pointers agree, and a child lies strictly deeper than its parent. */
  ghost predicate Forest(nodes: Nodes, root: Ptr) {
    && (forall x :: x in nodes ==> ParentOk(nodes, x))
    && (forall p, c :: p in nodes && c in nodes[p].children ==> ChildOk(nodes, root, p, c))
  }

  /** `x` is `n` or hangs somewhere below it. */
  predicate Below(nodes: Nodes, x: Ptr, n: Ptr)
    requires x in nodes
    decreases Level(nodes[x])
  {
    || x == n
    || (&& nodes[x].parent.Some?
        && nodes[x].parent.value in nodes
        && Level(nodes[nodes[x].parent.value]) < Level(nodes[x])
        && Below(nodes, nodes[x].parent.value, n))
  }

  ghost function Subtree(nodes: Nodes, n: Ptr): set<Ptr> {
    set x | x in nodes && Below(nodes, x, n)
  }

  ghost function Subtrees(nodes: Nodes, tops: set<Ptr>): set<Ptr> {
    set x | x in nodes && exists n :: n in tops && Below(nodes, x, n)
  }

  /** `cut` contains every child of its members. */
  ghost predicate Closed(nodes: Nodes, cut: set<Ptr>) {
    forall x :: x in nodes && nodes[x].parent.Some? && nodes[x].parent.value in cut ==> x in cut
  }

  /** The forest after the nodes of `cut` were detached. */
  function Cut(nodes: Nodes, cut: set<Ptr>): Nodes {
    map x | x in nodes ::
      if x in cut then nodes[x].(parent := None, children := {})
      else nodes[x].(children := nodes[x].children - cut)
  }

  function Hashes(nodes: Nodes, cut: set<Ptr>): set<Hash> {
    set x | x in cut && x in nodes :: HeadHash(nodes[x])
  }

  lemma CutTwice(nodes: Nodes, a: set<Ptr>, b: set<Ptr>)
    ensures Cut(Cut(nodes, a), b) == Cut(nodes, a + b)
  {
    forall x | x in nodes
      ensures Cut(Cut(nodes, a), b)[x] == Cut(nodes, a + b)[x]
    {
      assert nodes[x].children - a - b == nodes[x].children - (a + b);
    }
  }

  lemma {:induction false} BelowLevel(nodes: Nodes, x: Ptr, n: Ptr)
    requires x in nodes && n in nodes && Below(nodes, x, n)
    ensures x == n || Level(nodes[n]) < Level(nodes[x])
    decreases Level(nodes[x])
  {
    if x != n {
      BelowLevel(nodes, nodes[x].parent.value, n);
    }
  }

  lemma {:induction false} BelowTransitive(nodes: Nodes, x: Ptr, y: Ptr, n: Ptr)
    requires x in nodes && y in nodes && Below(nodes, x, y) && Below(nodes, y, n)
    ensures Below(nodes, x, n)
    decreases Level(nodes[x])
  {
    if x != y {
      BelowTransitive(nodes, nodes[x].parent.value, y, n);
    }
  }

  /** The child of `n` through which `x` hangs below `n`. */
  ghost function Branch(nodes: Nodes, x: Ptr, n: Ptr): (c: Ptr)
    requires x in nodes && x != n && Below(nodes, x, n)
    ensures c in nodes && nodes[c].parent == Some(n) && Below(nodes, x, c)
    decreases Level(nodes[x])
  {
    if nodes[x].parent.value == n then x else Branch(nodes, nodes[x].parent.value, n)
  }

  /** Subtrees of two different children of one node share nothing. */
  lemma {:induction false} SiblingsDisjoint(nodes: Nodes, x: Ptr, a: Ptr, b: Ptr, n: Ptr)
    requires x in nodes && a in nodes && b in nodes && n in nodes && a != b
    requires nodes[a].parent == Some(n) && nodes[b].parent == Some(n)
    requires Level(nodes[n]) < Level(nodes[a]) && Level(nodes[n]) < Level(nodes[b])
    ensures !(Below(nodes, x, a) && Below(nodes, x, b))
    decreases Level(nodes[x])
  {
    if Below(nodes, x, a) && Below(nodes, x, b) {
      if x == a {
        BelowLevel(nodes, n, b);
      } else if x == b {
        BelowLevel(nodes, n, a);
      } else {
        SiblingsDisjoint(nodes, nodes[x].parent.value, a, b, n);
      }
    }
  }

  lemma SubtreeClosed(nodes: Nodes, root: Ptr, n: Ptr)
    requires Forest(nodes, root)
    ensures Closed(nodes, Subtree(nodes, n))
  {
    forall x | x in nodes && nodes[x].parent.Some? && nodes[x].parent.value in Subtree(nodes, n)
      ensures x in Subtree(nodes, n)
    {
      assert ParentOk(nodes, x);
    }
  }

  lemma SubtreesClosed(nodes: Nodes, root: Ptr, tops: set<Ptr>)
    requires Forest(nodes, root)
    ensures Closed(nodes, Subtrees(nodes, tops))
  {
    forall x | x in nodes && nodes[x].parent.Some? && nodes[x].parent.value in Subtrees(nodes, tops)
      ensures x in Subtrees(nodes, tops)
    {
      var n :| n in tops && Below(nodes, nodes[x].parent.value, n);
      assert ParentOk(nodes, x) && Below(nodes, x, n);
    }
  }

  lemma CutForest(nodes: Nodes, root: Ptr, cut: set<Ptr>)
    requires Forest(nodes, root) && Closed(nodes, cut) && root !in cut
    ensures Forest(Cut(nodes, cut), root)
  {
    var after := Cut(nodes, cut);
    forall x | x in after
      ensures ParentOk(after, x)
    {
      assert ParentOk(nodes, x);
    }
    forall p, c | p in after && c in after[p].children
      ensures ChildOk(after, root, p, c)
    {
      assert c in nodes[p].children;
      assert ChildOk(nodes, root, p, c);
    }
  }

  /** Cutting elsewhere leaves a subtree as it was. */
  lemma {:induction false} BelowAfterCut(nodes: Nodes, cut: set<Ptr>, x: Ptr, n: Ptr)
    requires x in nodes && n in nodes && Closed(nodes, cut) && n !in cut
    ensures Below(Cut(nodes, cut), x, n) <==> Below(nodes, x, n) && x !in cut
    decreases Level(nodes[x])
  {
    var after := Cut(nodes, cut);
    if x != n && x !in cut && nodes[x].parent.Some? {
      var p := nodes[x].parent.value;
      if p in nodes && Level(nodes[p]) < Level(nodes[x]) {
        BelowAfterCut(nodes, cut, p, n);
        assert Level(after[p]) == Level(nodes[p]) && Level(after[x]) == Level(nodes[x]);
      }
    } else if x in cut && x != n {
      assert after[x].parent.None?;
    }
  }
}
