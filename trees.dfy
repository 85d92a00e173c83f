/**
 * The generic tree of the data-structure header: a payload and an ordered list of
 * subtrees. Nodes are values here; the subtree list is what the C code reallocates.
 */
module Trees {
  import opened Common

  datatype Tree<T> = Node(data: T, children: seq<Tree<T>>)

  function Max(a: int, b: int): int { if a >= b then a else b }

  /** The length of the longest path from t down to a leaf. */
  function Height<T>(t: Tree<T>): nat
    decreases t, 1
  {
    if |t.children| == 0 then 0 else 1 + MaxHeight(t.children)
  }

  /** The largest height among cs, 0 for none. */
  function MaxHeight<T>(cs: seq<Tree<T>>): nat
    decreases cs, 0
  {
    if |cs| == 0 then 0 else Max(MaxHeight(cs[..|cs| - 1]), Height(cs[|cs| - 1]))
  }

  /** MaxHeight is an upper bound of the heights, reached by one of them. */
  lemma {:induction false} MaxHeightIsMaximum<T>(cs: seq<Tree<T>>)
    ensures forall i :: 0 <= i < |cs| ==> Height(cs[i]) <= MaxHeight(cs)
    ensures |cs| > 0 ==> exists i :: 0 <= i < |cs| && Height(cs[i]) == MaxHeight(cs)
  {
    if |cs| > 0 {
      var init := cs[..|cs| - 1];
      MaxHeightIsMaximum(init);
      assert forall i :: 0 <= i < |init| ==> cs[i] == init[i];
      if Height(cs[|cs| - 1]) < MaxHeight(init) {
        var i :| 0 <= i < |init| && Height(init[i]) == MaxHeight(init);
        assert Height(cs[i]) == MaxHeight(cs);
      } else {
        assert Height(cs[|cs| - 1]) == MaxHeight(cs);
      }
    }
  }

  /** A node is one level above its tallest child, and above every child. */
  lemma HeightOfChildren<T>(t: Tree<T>)
    ensures forall i :: 0 <= i < |t.children| ==> Height(t.children[i]) < Height(t)
    ensures |t.children| > 0 ==> exists i :: 0 <= i < |t.children| && Height(t.children[i]) + 1 == Height(t)
    ensures |t.children| == 0 <==> Height(t) == 0
  {
    MaxHeightIsMaximum(t.children);
  }

  /** rrr_tree_new: a node with the given payload and no subtrees. */
  function NewTree<T>(data: T): (t: Tree<T>)
    ensures t.data == data && |t.children| == 0 && Height(t) == 0
  {
    Node(data, [])
  }

  /** tree_insert_subtree: the subtree becomes the last child; the others keep their places. */
  function InsertSubtree<T>(t: Tree<T>, s: Tree<T>): (u: Tree<T>)
    ensures u.data == t.data
    ensures |u.children| == |t.children| + 1
    ensures u.children[..|t.children|] == t.children && u.children[|t.children|] == s
  {
    Node(t.data, t.children + [s])
  }

  /** tree_remove_subtree: child i goes; the later ones move down one place, in order. */
  function RemoveSubtree<T>(t: Tree<T>, i: nat): (u: Tree<T>)
    requires i < |t.children|
    ensures u.data == t.data
    ensures |u.children| == |t.children| - 1
    ensures forall k :: 0 <= k < i ==> u.children[k] == t.children[k]
    ensures forall k :: i <= k < |u.children| ==> u.children[k] == t.children[k + 1]
  {
    Node(t.data, t.children[..i] + t.children[i + 1..])
  }

  /** tree_get_subtree: child i when there is one, and nothing (NULL) otherwise. */
  function GetSubtree<T>(t: Tree<T>, i: nat): (o: Option<Tree<T>>)
    ensures o.Some? <==> i < |t.children|
    ensures o.Some? ==> o.value == t.children[i]
  {
    if |t.children| <= i then None else Some(t.children[i])
  }

  /** The shifting loop of tree_remove_subtree on the subtree array, with its count. */
  method ShiftOut<T>(leafs: array<T>, count: nat, index: nat)
    requires index < count <= leafs.Length
    modifies leafs
    ensures leafs[..count - 1] == old(leafs[..index]) + old(leafs[index + 1..count])
    ensures leafs[count - 1..] == old(leafs[count - 1..])
  {
    var i := index;
    while i < count - 1
      invariant index <= i <= count - 1
      invariant leafs[..index] == old(leafs[..index])
      invariant leafs[index..i] == old(leafs[index + 1..i + 1])
      invariant leafs[i..] == old(leafs[i..])
    {
      leafs[i] := leafs[i + 1];
      i := i + 1;
    }
  }

  /**
   * rrr_tree_max_depth: the running maximum `best` is raised to the deepest level
   * below a node that sits at level `current`.
   */
  method MaxDepthInto<T>(t: Tree<T>, best: nat, current: nat) returns (result: nat)
    ensures result == Max(best, current + Height(t))
    decreases t
  {
    result := best;
    if current >= result {
      result := current;
    }
    for i := 0 to |t.children|
      invariant result == Max(Max(best, current), if i == 0 then current else current + 1 + MaxHeight(t.children[..i]))
    {
      assert t.children[..i + 1][..i] == t.children[..i];
      result := MaxDepthInto(t.children[i], result, current + 1);
    }
    assert t.children[..|t.children|] == t.children;
  }

  /** tree_max_depth: the height of the tree. */
  method MaxDepth<T>(t: Tree<T>) returns (depth: nat)
    ensures depth == Height(t)
  {
    depth := MaxDepthInto(t, 0, 0);
  }
}
