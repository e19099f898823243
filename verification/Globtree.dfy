/** Boolean expressions over file names: built with simplification, and evaluated
    without recursion, with the walk's state kept in the nodes. */
module Globtree {
  import opened Fnmatch

  /** What a node is: an operator, or a test of its own.  A compiled regular
      expression is the predicate it decides. */
  datatype Kind = Not | And | Or | Match(pattern: string, flags: Flags) | Regex(accepts: string -> bool) | True | False

  datatype Tree = Negation(child: Tree) | Conjunction(left: Tree, right: Tree) | Disjunction(left: Tree, right: Tree)
    | Leaf(kind: Kind)

  ghost predicate LeafValue(k: Kind, path: string) {
    match k
    case Match(pattern, flags) => Globs(Items(pattern, 0), path, flags)
    case Regex(accepts) => accepts(path)
    case True => true
    case _ => false
  }

  /** The meaning of an expression. */
  ghost predicate Value(t: Tree, path: string) {
    match t
    case Negation(c) => !Value(c, path)
    case Conjunction(l, r) => Value(l, path) && Value(r, path)
    case Disjunction(l, r) => Value(l, path) || Value(r, path)
    case Leaf(k) => LeafValue(k, path)
  }

  predicate Constant(t: Tree) { t.Leaf? && (t.kind.True? || t.kind.False?) }

  /** No operator has an operand that is always true or always false. */
  predicate Simple(t: Tree) {
    match t
    case Negation(c) => !Constant(c) && Simple(c)
    case Conjunction(l, r) => !Constant(l) && !Constant(r) && Simple(l) && Simple(r)
    case Disjunction(l, r) => !Constant(l) && !Constant(r) && Simple(l) && Simple(r)
    case Leaf(_) => true
  }

  /** Bounds the steps of the evaluation. */
  function Cost(t: Tree): (n: nat)
    ensures n > 0
  {
    match t
    case Negation(c) => 1 + Cost(c)
    case Conjunction(l, r) => 2 + Cost(l) + Cost(r)
    case Disjunction(l, r) => 2 + Cost(l) + Cost(r)
    case Leaf(_) => 1
  }

  // ---------------------------------------------------------------- what is left

  datatype Walk = DoingLeft | DoingRight | Unset

  /** An operator on the stack and where its evaluation is. */
  datatype Frame = Frame(tree: Tree, walk: Walk)

  /** What the operators on the stack make of the value of the subtree below. */
  ghost predicate Finish(stack: seq<Frame>, val: bool, path: string) {
    if stack == [] then val
    else
      match stack[0].tree
      case Negation(_) => Finish(stack[1..], !val, path)
      case Conjunction(_, r) =>
        Finish(stack[1..], if stack[0].walk.DoingLeft? && val then Value(r, path) else val, path)
      case Disjunction(_, r) =>
        Finish(stack[1..], if stack[0].walk.DoingLeft? && !val then Value(r, path) else val, path)
      case Leaf(_) => val
  }

  function StackCost(stack: seq<Frame>): nat {
    if stack == [] then 0
    else
      (match stack[0].tree
       case Negation(_) => 1
       case Conjunction(_, r) => if stack[0].walk.DoingLeft? then 2 + Cost(r) else 1
       case Disjunction(_, r) => if stack[0].walk.DoingLeft? then 2 + Cost(r) else 1
       case Leaf(_) => 1) + StackCost(stack[1..])
  }

  // ------------------------------------------------------------------- the nodes

  class Node {
    const kind: Kind
    const left: Node?
    const right: Node?
    ghost const tree: Tree
    var state: Walk
    var next: Node?

    /** The node is what its tree says, and so is everything below it. */
    ghost predicate Valid()
      decreases tree
    {
      match tree
      case Negation(c) => kind.Not? && left != null && left.tree == c && left.Valid()
      case Conjunction(l, r) =>
        kind.And? && left != null && left.tree == l && left.Valid() && right != null && right.tree == r && right.Valid()
      case Disjunction(l, r) =>
        kind.Or? && left != null && left.tree == l && left.Valid() && right != null && right.tree == r && right.Valid()
      case Leaf(k) => k == kind && !k.Not? && !k.And? && !k.Or? && left == null && right == null
    }

    /** All nodes of the expression. */
    ghost function Nodes(): (s: set<Node>)
      requires Valid()
      ensures this in s
      decreases tree
    {
      match tree
      case Negation(_) => {this} + left.Nodes()
      case Conjunction(_, _) => {this} + left.Nodes() + right.Nodes()
      case Disjunction(_, _) => {this} + left.Nodes() + right.Nodes()
      case Leaf(_) => {this}
    }

    constructor (kind: Kind, left: Node?, right: Node?, ghost tree: Tree)
      ensures this.kind == kind && this.left == left && this.right == right && this.tree == tree
    {
      this.kind, this.left, this.right, this.tree := kind, left, right, tree;
      state, next := Unset, null;
    }
  }

  method NewLeaf(kind: Kind) returns (gt: Node)
    requires !kind.Not? && !kind.And? && !kind.Or?
    ensures gt.Valid() && gt.tree == Leaf(kind) && fresh(gt.Nodes())
  {
    gt := new Node(kind, null, null, Leaf(kind));
  }

  /** Both: an operand that is constant is left out. */
  method Both(left: Node, right: Node) returns (gt: Node)
    requires left.Valid() && right.Valid()
    ensures gt.Valid() && forall path :: Value(gt.tree, path) <==> Value(left.tree, path) && Value(right.tree, path)
    ensures Simple(left.tree) && Simple(right.tree) ==> Simple(gt.tree)
    ensures forall n :: n in gt.Nodes() && n !in left.Nodes() && n !in right.Nodes() ==> fresh(n)
  {
    if left.kind.False? || right.kind.False? {
      gt := NewLeaf(False);
    } else if left.kind.True? {
      gt := right;
    } else if right.kind.True? {
      gt := left;
    } else {
      gt := new Node(And, left, right, Conjunction(left.tree, right.tree));
    }
  }

  /** Either one. */
  method Either(left: Node, right: Node) returns (gt: Node)
    requires left.Valid() && right.Valid()
    ensures gt.Valid() && forall path :: Value(gt.tree, path) <==> Value(left.tree, path) || Value(right.tree, path)
    ensures Simple(left.tree) && Simple(right.tree) ==> Simple(gt.tree)
    ensures forall n :: n in gt.Nodes() && n !in left.Nodes() && n !in right.Nodes() ==> fresh(n)
  {
    if left.kind.True? || right.kind.True? {
      gt := NewLeaf(True);
    } else if left.kind.False? {
      gt := right;
    } else if right.kind.False? {
      gt := left;
    } else {
      gt := new Node(Or, left, right, Disjunction(left.tree, right.tree));
    }
  }

  method Opposite(child: Node) returns (gt: Node)
    requires child.Valid()
    ensures gt.Valid() && forall path :: Value(gt.tree, path) <==> !Value(child.tree, path)
    ensures Simple(child.tree) ==> Simple(gt.tree)
    ensures forall n :: n in gt.Nodes() && n !in child.Nodes() ==> fresh(n)
  {
    if child.kind.True? {
      gt := NewLeaf(False);
    } else if child.kind.False? {
      gt := NewLeaf(True);
    } else {
      gt := new Node(Not, child, null, Negation(child.tree));
    }
  }

  /** A leaf on its own. */
  method Eval(gt: Node, path: string) returns (val: bool)
    requires gt.Valid() && gt.tree.Leaf?
    ensures val <==> Value(gt.tree, path)
  {
    match gt.kind
    case True => val := true;
    case False => val := false;
    case Match(pattern, flags) => val := Fnmatch.Fnmatch(pattern, path, flags);
    case Regex(accepts) => val := accepts(path);
  }

  // -------------------------------------------------------------- the evaluation

  /** The list that begins at `head` and is linked through the nodes. */
  ghost predicate Linked(head: Node?, stack: seq<Node>)
    reads stack
  {
    if stack == [] then head == null else head == stack[0] && Linked(head.next, stack[1..])
  }

  ghost function Frames(stack: seq<Node>): seq<Frame>
    reads stack
  {
    if stack == [] then [] else [Frame(stack[0].tree, stack[0].state)] + Frames(stack[1..])
  }

  /** The operators above `below` on the way to the root, which are all different. */
  ghost predicate Path(below: Tree, stack: seq<Node>, all: set<Node>)
    decreases |stack|
  {
    stack == [] ||
    (Stacked(below, stack[0], all) && Path(stack[0].tree, stack[1..], all))
  }

  ghost predicate Stacked(below: Tree, n: Node, all: set<Node>) {
    n.Valid() && !n.tree.Leaf? && Cost(below) < Cost(n.tree) && n.Nodes() <= all
  }

  lemma {:induction false} PathAbove(below: Tree, stack: seq<Node>, all: set<Node>, n: Node)
    requires Path(below, stack, all) && n in stack
    ensures Cost(below) < Cost(n.tree)
    decreases |stack|
  {
    if n != stack[0] {
      assert stack == [stack[0]] + stack[1..];
      PathAbove(stack[0].tree, stack[1..], all, n);
    }
  }

  /** What is not above the current node is not on the stack. */
  lemma {:induction false} NotStacked(below: Tree, stack: seq<Node>, all: set<Node>, n: Node)
    requires Path(below, stack, all) && Cost(n.tree) <= Cost(below)
    ensures n !in stack
  {
    if n in stack {
      PathAbove(below, stack, all, n);
    }
  }

  lemma {:induction false} Push(n: Node, stack: seq<Node>, all: set<Node>, lower: Tree)
    requires Path(n.tree, stack, all) && Stacked(lower, n, all)
    ensures Path(lower, [n] + stack, all)
    ensures Frames([n] + stack) == [Frame(n.tree, n.state)] + Frames(stack)
    ensures Linked(n.next, stack) ==> Linked(n, [n] + stack)
  {
    assert ([n] + stack)[1..] == stack;
  }

  /** The stack without its first operator. */
  lemma {:induction false} Pop(head: Node, stack: seq<Node>, all: set<Node>, below: Tree)
    requires Path(below, stack, all) && Linked(head, stack)
    ensures stack != [] && head == stack[0] && Linked(head.next, stack[1..])
    ensures Stacked(below, head, all) && Path(head.tree, stack[1..], all)
    ensures Frames(stack) == [Frame(head.tree, head.state)] + Frames(stack[1..])
  {
  }

  lemma {:induction false} FirstFrame(f: Frame, rest: seq<Frame>, val: bool, path: string)
    ensures f.tree.Negation? ==>
              Finish([f] + rest, val, path) == Finish(rest, !val, path) && StackCost([f] + rest) == 1 + StackCost(rest)
    ensures f.tree.Conjunction? ==>
              Finish([f] + rest, val, path) ==
              Finish(rest, if f.walk.DoingLeft? && val then Value(f.tree.right, path) else val, path)
    ensures f.tree.Disjunction? ==>
              Finish([f] + rest, val, path) ==
              Finish(rest, if f.walk.DoingLeft? && !val then Value(f.tree.right, path) else val, path)
    ensures f.tree.Conjunction? || f.tree.Disjunction? ==>
              StackCost([f] + rest) ==
              (if f.walk.DoingLeft? then 2 + Cost(f.tree.right) else 1) + StackCost(rest)
  {
    assert ([f] + rest)[1..] == rest;
  }

  /** What is still to be done: a subtree to evaluate, and the operators above it. */
  ghost predicate Doing(gt: Node, head: Node?, stack: seq<Node>, all: set<Node>)
    reads stack
  {
    gt.Valid() && gt.Nodes() <= all && Path(gt.tree, stack, all) && Linked(head, stack)
  }

  ghost function Left(gt: Node, stack: seq<Node>): nat
    reads stack
  {
    Cost(gt.tree) + StackCost(Frames(stack))
  }

  ghost predicate Result(gt: Node, stack: seq<Node>, path: string)
    reads stack
  {
    Finish(Frames(stack), Value(gt.tree, path), path)
  }

  /** Puts the node on the stack and goes to one of its children. */
  method Visit(gt: Node, walk: Walk, head: Node?, ghost stack: seq<Node>, ghost all: set<Node>, path: string)
      returns (child: Node, ghost more: seq<Node>)
    requires gt.Valid() && gt.Nodes() <= all && Path(gt.tree, stack, all) && Linked(head, stack)
    requires !gt.tree.Leaf? && !walk.Unset? && (walk.DoingRight? ==> !gt.tree.Negation?)
    modifies gt
    ensures Doing(child, gt, more, all)
    ensures walk.DoingLeft? ==> child == gt.left && Left(child, more) <= old(Left(gt, stack))
    ensures walk.DoingLeft? ==> Result(child, more, path) == old(Result(gt, stack, path))
    ensures walk.DoingRight? ==>
            child == gt.right && Left(child, more) == 1 + Cost(gt.tree.right) + old(StackCost(Frames(stack)))
    ensures walk.DoingRight? ==>
            Result(child, more, path) == old(Finish(Frames(stack), Value(gt.tree.right, path), path))
  {
    NotStacked(gt.tree, stack, all, gt);
    gt.state, gt.next := walk, head;
    child := if walk.DoingLeft? then gt.left else gt.right;
    Push(gt, stack, all, child.tree);
    more := [gt] + stack;
    FirstFrame(Frame(gt.tree, gt.state), Frames(stack), Value(child.tree, path), path);
    hide Finish, StackCost, Frames, Path, Linked;
  }

  /** Goes down to the left until there is nothing below. */
  method Descend(from: Node, top: Node?, ghost old_stack: seq<Node>, ghost all: set<Node>, path: string)
      returns (gt: Node, head: Node?, ghost stack: seq<Node>)
    requires Doing(from, top, old_stack, all)
    modifies all
    ensures Doing(gt, head, stack, all) && gt.tree.Leaf?
    ensures Result(gt, stack, path) == old(Result(from, old_stack, path))
    ensures Left(gt, stack) <= old(Left(from, old_stack))
  {
    gt, head, stack := from, top, old_stack;
    while gt.left != null
      invariant Doing(gt, head, stack, all)
      invariant Result(gt, stack, path) == old(Result(from, old_stack, path))
      invariant Left(gt, stack) <= old(Left(from, old_stack))
      decreases gt.tree
    {
      hide Result, Left, Path, Linked;
      var child;
      child, stack := Visit(gt, DoingLeft, head, stack, all, path);
      gt, head := child, gt;
    }
  }

  /** Goes up with the value of a subtree, through the operators that need nothing
      more, to one that needs its right side, if there is one. */
  method Ascend(below: Node, v: bool, top: Node?, ghost old_stack: seq<Node>, ghost all: set<Node>, path: string)
      returns (done: bool, val: bool, gt: Node, head: Node?, ghost stack: seq<Node>)
    requires Doing(below, top, old_stack, all)
    modifies all
    ensures done ==> val == old(Finish(Frames(old_stack), v, path))
    ensures !done ==> Doing(gt, head, stack, all) && Result(gt, stack, path) == old(Finish(Frames(old_stack), v, path))
    ensures !done ==> Left(gt, stack) <= old(StackCost(Frames(old_stack)))
  {
    done, val, gt, head, stack := true, v, below, top, old_stack;
    while head != null
      invariant Path(gt.tree, stack, all) && Linked(head, stack)
      invariant Finish(Frames(stack), val, path) == old(Finish(Frames(old_stack), v, path))
      invariant StackCost(Frames(stack)) <= old(StackCost(Frames(old_stack)))
      decreases |stack|
    {
      Pop(head, stack, all, gt.tree);
      FirstFrame(Frame(head.tree, head.state), Frames(stack[1..]), val, path);
      hide Finish, StackCost, Frames, Path, Linked;
      gt, head, stack := head, head.next, stack[1..];
      match gt.kind
      case Not =>
        val := !val;
      case And =>
        if gt.state == DoingLeft && val {
          head, gt, stack := Right(gt, head, stack, all, path);
          done := false;
          return;
        }
      case Or =>
        if gt.state == DoingLeft && !val {
          head, gt, stack := Right(gt, head, stack, all, path);
          done := false;
          return;
        }
    }
  }

  method Right(gt: Node, top: Node?, ghost old_stack: seq<Node>, ghost all: set<Node>, path: string)
      returns (head: Node?, child: Node, ghost stack: seq<Node>)
    requires gt.Valid() && gt.Nodes() <= all && Path(gt.tree, old_stack, all) && Linked(top, old_stack)
    requires !gt.tree.Leaf? && !gt.tree.Negation?
    modifies gt
    ensures Doing(child, head, stack, all)
    ensures Left(child, stack) == 1 + Cost(gt.tree.right) + old(StackCost(Frames(old_stack)))
    ensures Result(child, stack, path) == old(Finish(Frames(old_stack), Value(gt.tree.right, path), path))
  {
    hide Path, Linked, Finish, StackCost, Frames;
    child, stack := Visit(gt, DoingRight, top, old_stack, all, path);
    head := gt;
  }

  /** The evaluation without recursion: it ends, with the value of the expression,
      whatever the nodes held before. */
  method Test(root: Node, path: string) returns (val: bool)
    requires root.Valid()
    modifies root.Nodes()
    ensures val <==> Value(root.tree, path)
  {
    ghost var all := root.Nodes();
    var gt, head := root, null;
    ghost var stack := [];
    var done := false;
    val := false;
    while !done
      invariant done ==> (val <==> Value(root.tree, path))
      invariant !done ==> Doing(gt, head, stack, all) && Result(gt, stack, path) == Value(root.tree, path)
      decreases if done then 0 else Left(gt, stack)
    {
      gt, head, stack := Descend(gt, head, stack, all, path);
      hide Doing, Finish, StackCost, Frames;
      val := Eval(gt, path);
      done, val, gt, head, stack := Ascend(gt, val, head, stack, all, path);
    }
  }

  /** An expression as it is meant: only its leaves are tests. */
  predicate Formed(t: Tree) {
    match t
    case Negation(c) => Formed(c)
    case Conjunction(l, r) => Formed(l) && Formed(r)
    case Disjunction(l, r) => Formed(l) && Formed(r)
    case Leaf(k) => !k.Not? && !k.And? && !k.Or?
  }

  /** The constructors nested as an expression is. */
  method Build(t: Tree) returns (gt: Node)
    requires Formed(t)
    ensures gt.Valid() && fresh(gt.Nodes()) && Simple(gt.tree)
    ensures forall path :: Value(gt.tree, path) <==> Value(t, path)
    decreases t
  {
    match t
    case Negation(c) =>
      var child := Build(c);
      gt := Opposite(child);
      forall n | n in gt.Nodes() ensures fresh(n) {
        assert n in child.Nodes() || fresh(n);
      }
    case Conjunction(l, r) =>
      var left := Build(l);
      var right := Build(r);
      gt := Both(left, right);
      forall n | n in gt.Nodes() ensures fresh(n) {
        assert n in left.Nodes() || n in right.Nodes() || fresh(n);
      }
    case Disjunction(l, r) =>
      var left := Build(l);
      var right := Build(r);
      gt := Either(left, right);
      forall n | n in gt.Nodes() ensures fresh(n) {
        assert n in left.Nodes() || n in right.Nodes() || fresh(n);
      }
    case Leaf(k) =>
      gt := NewLeaf(k);
  }

  /** Built with simplification and evaluated with a stack, an expression accepts the
      names it means. */
  method Accepts(t: Tree, path: string) returns (val: bool)
    requires Formed(t)
    ensures val <==> Value(t, path)
  {
    var gt := Build(t);
    val := Test(gt, path);
  }
}
