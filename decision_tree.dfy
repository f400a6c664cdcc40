/**
 * The decision tree of hexlytics (hexlytics.DecisionTree).
 *
 * While a tree is built, its inner nodes are objects holding a fixed-size
 * array of branch slots that start empty and are each filled at most once.
 * A finished tree is read by an iterative descent from the root: an inner
 * node's classifier picks a slot, a leaf answers its class, and an empty
 * slot answers -1.  The finished tree is also described as a value (`Tree`)
 * so that its classification and its printed form are plain functions.
 */
module DecisionTree {
  import opened Wrappers

  /** A row as the tree sees it: the values getD(0), ..., getD(columns() - 1). */
  type Row = seq<real>

  /**
   * The classifier of an inner node or of a sentinel.  A numeric split is
   * inspected by the descent itself; any other classifier is a black box that
   * answers a branch index.  `name` is the classifier's toString().
   */
  datatype Classifier =
    | SplitClassifier(column: nat, value: real, name: string)
    | General(classes: nat, decide: Row -> int, name: string)

  /** numClasses() of a classifier; a numeric split has two sides. */
  function NumClasses(c: Classifier): nat {
    match c
    case SplitClassifier(_, _, _) => 2
    case General(classes, _, _) => classes
  }

  /** The classifier can look at this row (a numeric split needs its column). */
  predicate Decidable(c: Classifier, row: Row) {
    c.SplitClassifier? ==> c.column < |row|
  }

  /**
   * classify(row) of a classifier.  For a numeric split this is the comparison
   * the descent makes: branch 0 when the column's value is at most the split
   * value, branch 1 otherwise.
   */
  function Decide(c: Classifier, row: Row): (b: int)
    requires Decidable(c, row)
    ensures c.SplitClassifier? ==> (b == 0 <==> row[c.column] <= c.value) && (b == 0 || b == 1)
  {
    match c
    case SplitClassifier(column, value, _) => if row[column] <= value then 0 else 1
    case General(_, decide, _) => decide(row)
  }

  // ---------------------------------------------------------------------------
  // The finished tree as a value

  /**
   * A tree: a leaf with its class, a sentinel wrapping a classifier (`text` is
   * its Object.toString()), or an inner node with one optional subtree per
   * class of its classifier and a default category.
   */
  datatype Tree =
    | Leaf(class_: int)
    | Sentinel(cls: Classifier, text: string)
    | Inner(classifier: Classifier, branches: seq<Option<Tree>>, defaultCategory: int)

  /**
   * The descent below the starting node can be carried out: every inner node
   * on the way can decide the row and answers an index of an existing slot,
   * and no sentinel is met (a sentinel is cast to an inner node and fails).
   */
  predicate Walkable(t: Tree, row: Row) {
    match t
    case Leaf(_) => true
    case Sentinel(_, _) => false
    case Inner(c, bs, _) =>
      Decidable(c, row) && 0 <= Decide(c, row) < |bs| &&
      (bs[Decide(c, row)].Some? ==> Walkable(bs[Decide(c, row)].value, row))
  }

  /** The iterative descent: the class of the leaf reached, -1 at an empty slot. */
  function Descend(t: Tree, row: Row): int
    requires Walkable(t, row)
  {
    match t
    case Leaf(c) => c
    case Inner(c, bs, _) =>
      var b := Decide(c, row);
      if bs[b].None? then -1 else Descend(bs[b].value, row)
  }

  /** classifyRecursive can run from this node (a sentinel may be the start). */
  predicate Classifiable(t: Tree, row: Row) {
    if t.Sentinel? then Decidable(t.cls, row) else Walkable(t, row)
  }

  /** classifyRecursive(row) of the node that the tree `t` starts with. */
  function ClassifyTree(t: Tree, row: Row): int
    requires Classifiable(t, row)
  {
    if t.Sentinel? then Decide(t.cls, row) else Descend(t, row)
  }

  /** The classes of the leaves of t. */
  function LeafClasses(t: Tree): set<int> {
    match t
    case Leaf(c) => {c}
    case Sentinel(_, _) => {}
    case Inner(_, bs, _) =>
      set i, c | 0 <= i < |bs| && bs[i].Some? && c in LeafClasses(bs[i].value) :: c
  }

  /** Every slot of every inner node is filled and no sentinel sits below the top. */
  predicate Complete(t: Tree) {
    match t
    case Leaf(_) => true
    case Sentinel(_, _) => false
    case Inner(_, bs, _) => forall i :: 0 <= i < |bs| ==> bs[i].Some? && Complete(bs[i].value)
  }

  /**
   * The descent answers the class of one of the tree's leaves, or -1; and it
   * answers a leaf's class whenever no slot of the tree is empty.
   */
  lemma {:induction false} DescendReachesLeaf(t: Tree, row: Row)
    requires Walkable(t, row)
    ensures Descend(t, row) in LeafClasses(t) || Descend(t, row) == -1
    ensures Complete(t) ==> Descend(t, row) in LeafClasses(t)
  {
    match t
    case Leaf(c) =>
    case Inner(c, bs, _) =>
      var b := Decide(c, row);
      if bs[b].Some? {
        DescendReachesLeaf(bs[b].value, row);
        if Descend(t, row) in LeafClasses(bs[b].value) {
          assert Descend(t, row) in LeafClasses(t) by {
            var x := Descend(t, row);
            assert 0 <= b < |bs| && bs[b].Some? && x in LeafClasses(bs[b].value);
          }
        }
      }
  }

  // ---------------------------------------------------------------------------
  // toString

  /** Integer.toString: optional '-' followed by decimal digits. */
  function IntString(n: int): (s: string)
    ensures |s| > 0
    ensures forall i :: 0 <= i < |s| ==> s[i] == '-' || '0' <= s[i] <= '9'
    decreases if n < 0 then 1 - n else n
  {
    if n < 0 then "-" + IntString(-n)
    else if n < 10 then [(48 + n) as char]
    else IntString(n / 10) + [(48 + n % 10) as char]
  }

  /** The printed form of a tree: "(leaf c)", or "(name s0 s1 ...)" with empty slots printed as nothing. */
  function TreeString(t: Tree): string
    decreases t, 1
  {
    match t
    case Leaf(c) => "(leaf " + IntString(c) + ")"
    case Sentinel(_, text) => text
    case Inner(c, bs, _) => "(" + c.name + SlotsString(t, |bs|) + ")"
  }

  /** The first n slots of an inner node, each printed after a space. */
  function SlotsString(t: Tree, n: nat): string
    requires t.Inner? && n <= |t.branches|
    decreases t, 0, n
  {
    if n == 0 then ""
    else
      SlotsString(t, n - 1) + " " +
      (if t.branches[n - 1].Some? then TreeString(t.branches[n - 1].value) else "")
  }

  /** The number of occurrences of ch in s. */
  function Count(ch: char, s: string): nat {
    if |s| == 0 then 0 else Count(ch, s[..|s| - 1]) + (if s[|s| - 1] == ch then 1 else 0)
  }

  lemma {:induction false} CountConcat(ch: char, s: string, u: string)
    ensures Count(ch, s + u) == Count(ch, s) + Count(ch, u)
    decreases |u|
  {
    if |u| == 0 {
      assert s + u == s;
    } else {
      assert (s + u)[..|s + u| - 1] == s + u[..|u| - 1];
      CountConcat(ch, s, u[..|u| - 1]);
    }
  }

  lemma {:induction false} CountAbsent(ch: char, s: string)
    requires forall i :: 0 <= i < |s| ==> s[i] != ch
    ensures Count(ch, s) == 0
    decreases |s|
  {
    if |s| > 0 {
      CountAbsent(ch, s[..|s| - 1]);
    }
  }

  /** No classifier name or sentinel text contains a parenthesis. */
  predicate PlainText(s: string) {
    Count('(', s) == 0 && Count(')', s) == 0
  }

  predicate PlainLabels(t: Tree) {
    match t
    case Leaf(_) => true
    case Sentinel(c, text) => PlainText(c.name) && PlainText(text)
    case Inner(c, bs, _) =>
      PlainText(c.name) && forall i :: 0 <= i < |bs| && bs[i].Some? ==> PlainLabels(bs[i].value)
  }

  /** The number of leaves and inner nodes of a tree (sentinels print no parentheses). */
  function Groups(t: Tree): nat
    decreases t, 1
  {
    match t
    case Leaf(_) => 1
    case Sentinel(_, _) => 0
    case Inner(_, bs, _) => 1 + SlotGroups(t, |bs|)
  }

  function SlotGroups(t: Tree, n: nat): nat
    requires t.Inner? && n <= |t.branches|
    decreases t, 0, n
  {
    if n == 0 then 0
    else SlotGroups(t, n - 1) + (if t.branches[n - 1].Some? then Groups(t.branches[n - 1].value) else 0)
  }

  /**
   * The printed form is well parenthesised in the large: each leaf and each
   * inner node contributes exactly one "(" and one ")".
   */
  lemma {:induction false} TreeStringGroups(t: Tree)
    requires PlainLabels(t)
    ensures Count('(', TreeString(t)) == Groups(t)
    ensures Count(')', TreeString(t)) == Groups(t)
    decreases t, 1
  {
    match t
    case Leaf(c) =>
      var digits := IntString(c);
      CountAbsent('(', digits);
      CountAbsent(')', digits);
      CountAbsent('(', "leaf ");
      CountAbsent(')', "leaf ");
      assert "(leaf " == "(" + "leaf ";
      CountConcat('(', "(", "leaf ");
      CountConcat(')', "(", "leaf ");
      CountConcat('(', "(leaf ", digits);
      CountConcat(')', "(leaf ", digits);
      CountConcat('(', "(leaf " + digits, ")");
      CountConcat(')', "(leaf " + digits, ")");
    case Sentinel(_, _) =>
    case Inner(c, bs, _) =>
      SlotsGroups(t, |bs|);
      var inner := SlotsString(t, |bs|);
      CountConcat('(', "(" + c.name + inner, ")");
      CountConcat('(', "(" + c.name, inner);
      CountConcat('(', "(", c.name);
      CountConcat(')', "(" + c.name + inner, ")");
      CountConcat(')', "(" + c.name, inner);
      CountConcat(')', "(", c.name);
  }

  lemma {:induction false} SlotsGroups(t: Tree, n: nat)
    requires t.Inner? && n <= |t.branches| && PlainLabels(t)
    ensures Count('(', SlotsString(t, n)) == SlotGroups(t, n)
    ensures Count(')', SlotsString(t, n)) == SlotGroups(t, n)
    decreases t, 0, n
  {
    if n > 0 {
      SlotsGroups(t, n - 1);
      var last := if t.branches[n - 1].Some? then TreeString(t.branches[n - 1].value) else "";
      if t.branches[n - 1].Some? {
        TreeStringGroups(t.branches[n - 1].value);
      }
      CountConcat('(', SlotsString(t, n - 1) + " ", last);
      CountConcat('(', SlotsString(t, n - 1), " ");
      CountConcat(')', SlotsString(t, n - 1) + " ", last);
      CountConcat(')', SlotsString(t, n - 1), " ");
    }
  }

  // ---------------------------------------------------------------------------
  // The tree under construction

  /** The static DecisionTree.nodeCount, as an object the constructors update. */
  class NodeCounter {
    var count: int

    constructor ()
      ensures count == 0
    {
      count := 0;
    }
  }

  /** What a node is: LeafNode, SentinelNode or (inner) Node. */
  datatype NodeKind =
    | LeafNode(class_: int)
    | SentinelNode(cls: Classifier, text: string)
    | InnerNode(classifier: Classifier, defaultCategory: int)

  class Node {
    const kind: NodeKind
    /** The branch slots of an inner node, null while unset; no slots otherwise. */
    const subnodes: array<Node?>
    ghost var Repr: set<object>

    /** The node owns its slots and, disjointly from itself, its subtrees. */
    ghost predicate Valid()
      reads this, Repr
      decreases Repr
    {
      this in Repr && subnodes in Repr &&
      subnodes.Length == (if kind.InnerNode? then NumClasses(kind.classifier) else 0) &&
      forall i :: 0 <= i < subnodes.Length && subnodes[i] != null ==>
        subnodes[i] in Repr && subnodes[i].Repr <= Repr &&
        this !in subnodes[i].Repr && subnodes !in subnodes[i].Repr &&
        subnodes[i].Valid()
    }

    /** The subtree below this node, as a value. */
    ghost function ToTree(): Tree
      reads this, Repr
      requires Valid()
      decreases Repr, 1
    {
      match kind
      case LeafNode(c) => Tree.Leaf(c)
      case SentinelNode(c, text) => Tree.Sentinel(c, text)
      case InnerNode(c, dc) => Tree.Inner(c, Slots(0), dc)
    }

    /** The subtrees in slots i, i+1, ... as values. */
    ghost function Slots(i: nat): (r: seq<Option<Tree>>)
      reads this, Repr
      requires Valid() && i <= subnodes.Length
      ensures |r| == subnodes.Length - i
      decreases Repr, 0, subnodes.Length - i
    {
      if i == subnodes.Length then []
      else
        [if subnodes[i] == null then None else Some(subnodes[i].ToTree())] + Slots(i + 1)
    }

    lemma {:induction false} SlotsAt(i: nat, k: nat)
      requires Valid() && i <= k < subnodes.Length
      ensures Slots(i)[k - i] == if subnodes[k] == null then None else Some(subnodes[k].ToTree())
      decreases k - i
    {
      if i < k {
        SlotsAt(i + 1, k);
      }
    }

    /** LeafNode(dataClass): a leaf that answers dataClass; nodeCount grows by one. */
    constructor Leaf(dataClass: int, counter: NodeCounter)
      modifies counter
      ensures Valid() && fresh(Repr)
      ensures kind == LeafNode(dataClass)
      ensures counter.count == old(counter.count) + 1
    {
      kind := LeafNode(dataClass);
      subnodes := new Node?[0];
      Repr := {this, subnodes};
      new;
      counter.count := counter.count + 1;
    }

    /** SentinelNode(c): defers to c; nodeCount is left alone. */
    constructor Sentinel(c: Classifier, text: string)
      ensures Valid() && fresh(Repr)
      ensures kind == SentinelNode(c, text)
    {
      kind := SentinelNode(c, text);
      subnodes := new Node?[0];
      Repr := {this, subnodes};
    }

    /** Node(cl, dC): one empty slot per class of cl; nodeCount grows by one. */
    constructor Inner(cl: Classifier, dC: int, counter: NodeCounter)
      modifies counter
      ensures Valid() && fresh(Repr)
      ensures kind == InnerNode(cl, dC)
      ensures subnodes.Length == NumClasses(cl)
      ensures forall i :: 0 <= i < subnodes.Length ==> subnodes[i] == null
      ensures counter.count == old(counter.count) + 1
    {
      kind := InnerNode(cl, dC);
      subnodes := new Node?[NumClasses(cl)](_ => null);
      Repr := {this, subnodes};
      new;
      counter.count := counter.count + 1;
    }

    /** numClasses(): 1 for a leaf, the classifier's count otherwise. */
    function NumClassesOf(): (n: nat)
      reads this
      ensures kind.LeafNode? ==> n == 1
      ensures kind.InnerNode? ==> n == NumClasses(kind.classifier)
      ensures kind.SentinelNode? ==> n == NumClasses(kind.cls)
    {
      match kind
      case LeafNode(_) => 1
      case SentinelNode(c, _) => NumClasses(c)
      case InnerNode(c, _) => NumClasses(c)
    }

    /** classify(row): a leaf's class, or the node's own classifier's answer. */
    function Classify(row: Row): (r: int)
      reads this
      requires !kind.LeafNode? ==> Decidable(if kind.SentinelNode? then kind.cls else kind.classifier, row)
      ensures kind.LeafNode? ==> r == kind.class_
      ensures kind.SentinelNode? ==> r == Decide(kind.cls, row)
      ensures kind.InnerNode? ==> r == Decide(kind.classifier, row)
    {
      match kind
      case LeafNode(c) => c
      case SentinelNode(c, _) => Decide(c, row)
      case InnerNode(c, _) => Decide(c, row)
    }

    /**
     * setSubtree(index, subtree): fills an empty slot of an inner node and
     * changes no other slot.  The subtree must not contain this node.
     */
    method SetSubtree(index: int, subtree: Node)
      requires Valid() && kind.InnerNode?
      requires 0 <= index < subnodes.Length && subnodes[index] == null
      requires subtree.Valid() && this !in subtree.Repr && subnodes !in subtree.Repr
      modifies this, subnodes
      ensures Valid()
      ensures subnodes[..] == old(subnodes[..])[index := subtree]
      ensures Repr == old(Repr) + subtree.Repr
    {
      subnodes[index] := subtree;
      Repr := Repr + subtree.Repr;
    }

    /**
     * classifyRecursive(row): a leaf answers its class, a sentinel its
     * classifier's answer, and an inner node walks down, slot by slot, until
     * it reaches a leaf or an empty slot.
     */
    method ClassifyRecursive(row: Row) returns (r: int)
      requires Valid() && Classifiable(ToTree(), row)
      ensures r == ClassifyTree(ToTree(), row)
    {
      match kind
      case LeafNode(c) =>
        r := c;
      case SentinelNode(c, _) =>
        r := Decide(c, row);
      case InnerNode(_, _) =>
        r := Walk(row);
    }

    /** The while loop of Node.classifyRecursive. */
    method Walk(row: Row) returns (r: int)
      requires Valid() && Walkable(ToTree(), row)
      ensures r == Descend(ToTree(), row)
    {
      var node: Node? := this;
      while node != null
        invariant node != null ==> node.Valid() && Walkable(node.ToTree(), row)
        invariant node != null ==> Descend(node.ToTree(), row) == Descend(ToTree(), row)
        invariant node == null ==> Descend(ToTree(), row) == -1
        decreases if node == null then {} else node.Repr
      {
        match node.kind
        case LeafNode(c) =>
          return c;
        case SentinelNode(_, _) =>
          assert false;
        case InnerNode(cl, _) =>
          var b := if cl.SplitClassifier? then (if row[cl.column] <= cl.value then 0 else 1)
                   else cl.decide(row);
          assert b == Decide(cl, row);
          node.SlotsAt(0, b);
          node := node.subnodes[b];
      }
      return -1;
    }

    /** toString(): the printed form of the subtree. */
    method Render() returns (s: string)
      requires Valid()
      ensures s == TreeString(ToTree())
      decreases Repr, 1
    {
      match kind
      case LeafNode(c) =>
        s := "(leaf " + IntString(c) + ")";
      case SentinelNode(_, text) =>
        s := text;
      case InnerNode(cl, _) =>
        var slots := RenderSlots();
        s := "(" + cl.name + slots + ")";
    }

    /** The loop of Node.toString over the slots: a space, then the subtree if the slot is set. */
    method RenderSlots() returns (s: string)
      requires Valid() && kind.InnerNode?
      ensures s == SlotsString(ToTree(), subnodes.Length)
      decreases Repr, 0
    {
      ghost var t := ToTree();
      s := "";
      for i := 0 to subnodes.Length
        invariant s == SlotsString(t, i)
      {
        SlotsAt(0, i);
        var sub := "";
        if subnodes[i] != null {
          sub := subnodes[i].Render();
        }
        assert sub == if t.branches[i].Some? then TreeString(t.branches[i].value) else "";
        s := s + " " + sub;
      }
    }
  }

  /** A decision tree: a classifier defined by its root node. */
  class DecisionTree {
    const root: Node

    constructor (root: Node)
      ensures this.root == root
    {
      this.root := root;
    }

    /**
     * classify(row): the root's classifyRecursive.  When it answers -1 the
     * tree is printed and the descent repeated; neither changes the answer.
     */
    method Classify(row: Row) returns (r: int)
      requires root.Valid() && Classifiable(root.ToTree(), row)
      ensures r == ClassifyTree(root.ToTree(), row)
    {
      var first := root.ClassifyRecursive(row);
      if first == -1 {
        var text := root.Render();
        var again := root.ClassifyRecursive(row);
      }
      r := root.ClassifyRecursive(row);
    }

    /** toString(): the root's printed form. */
    method Render() returns (s: string)
      requires root.Valid()
      ensures s == TreeString(root.ToTree())
    {
      s := root.Render();
    }
  }
}
