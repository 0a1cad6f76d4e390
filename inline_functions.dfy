/**
 * Inline functions: `hasZeros`, whose non-local `return` leaves the
 * function from inside the `forEach` lambda, and the walk up a chain of
 * `TreeNode` parents looking for a node of a given type.
 */
module InlineFunctions {

  /** `hasZeros`: scans `ints` and returns `true` at the first zero. */
  method HasZeros(ints: seq<int>) returns (r: bool)
    ensures r <==> 0 in ints
  {
    for k := 0 to |ints|
      invariant 0 !in ints[..k]
    {
      if ints[k] == 0 {
        return true;
      }
    }
    assert ints[..|ints|] == ints;
    return false;
  }

  /**
   * A tree node. In the Kotlin class `parent` is a `val` initialised to
   * null; `depth` is a proof device bounding the length of the parent chain.
   */
  class TreeNode {
    const parent: TreeNode?
    ghost const depth: nat

    /** The parent chain is finite: every parent sits strictly lower. */
    ghost predicate Valid()
      decreases depth
    {
      parent != null ==> parent.depth < depth && parent.Valid()
    }

    /** The ancestors from the parent upwards. */
    ghost function Ancestors(): seq<TreeNode>
      requires Valid()
      decreases depth
    {
      if parent == null then [] else [parent] + parent.Ancestors()
    }

    /** `TreeNode()`: the parent is null. */
    constructor ()
      ensures parent == null && Valid()
    {
      parent := null;
      depth := 0;
    }
  }

  /** The first node of `nodes` passing `isInstance`, or null when none does. */
  ghost function FirstMatch(nodes: seq<TreeNode>, isInstance: TreeNode -> bool): (r: TreeNode?)
    ensures r == null <==> forall k :: 0 <= k < |nodes| ==> !isInstance(nodes[k])
    ensures r != null ==> exists k :: 0 <= k < |nodes| && nodes[k] == r && isInstance(r) &&
                                     forall i :: 0 <= i < k ==> !isInstance(nodes[i])
  {
    if nodes == [] then null
    else if isInstance(nodes[0]) then nodes[0]
    else
      var r := FirstMatch(nodes[1..], isInstance);
      assert forall k :: 1 <= k < |nodes| ==> nodes[k] == nodes[1..][k - 1];
      r
  }

  /**
   * `findParentOfType(clazz)`: walks up from the parent while the node is not
   * an instance of `clazz` (given as the test `isInstance`); the result is the
   * nearest ancestor that is one, or null.
   */
  method FindParentOfType(node: TreeNode, isInstance: TreeNode -> bool) returns (r: TreeNode?)
    requires node.Valid()
    ensures r == FirstMatch(node.Ancestors(), isInstance)
  {
    var p := node.parent;
    while p != null && !isInstance(p)
      invariant p != null ==> p.Valid()
      invariant FirstMatch(node.Ancestors(), isInstance) ==
                (if p == null then null else FirstMatch([p] + p.Ancestors(), isInstance))
      decreases if p == null then 0 else p.depth + 1
    {
      assert ([p] + p.Ancestors())[1..] == p.Ancestors();
      p := p.parent;
    }
    r := p;
  }

  /** The reified `findParentOfType<T>()`: the same walk with the `is T` test. */
  method FindParentOfTypeReified(node: TreeNode, isT: TreeNode -> bool) returns (r: TreeNode?)
    requires node.Valid()
    ensures r == FirstMatch(node.Ancestors(), isT)
  {
    var p := node.parent;
    while p != null && !isT(p)
      invariant p != null ==> p.Valid()
      invariant FirstMatch(node.Ancestors(), isT) ==
                (if p == null then null else FirstMatch([p] + p.Ancestors(), isT))
      decreases if p == null then 0 else p.depth + 1
    {
      assert ([p] + p.Ancestors())[1..] == p.Ancestors();
      p := p.parent;
    }
    r := p;
  }

  /**
   * `val a = treeNode.findParentOfType(TreeNode::class.java)` and its reified
   * counterpart: a fresh node has no parent, so both variants give null.
   */
  method FindParentOfFreshNode(isInstance: TreeNode -> bool) returns (a: TreeNode?, reified: TreeNode?)
    ensures a == null && reified == null
  {
    var treeNode := new TreeNode();
    a := FindParentOfType(treeNode, isInstance);
    reified := FindParentOfTypeReified(treeNode, isInstance);
  }
}
