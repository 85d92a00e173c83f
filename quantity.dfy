/**
 * The law of quantity: only the longest capture chains survive. The pruning walks each
 * node's subtree list with an index loop that removes a child and steps the index back.
 */
module Quantity {
  import opened Common
  import opened Trees

  /** `a - k` on size_t: wraps around below zero. */
  function SizeSub(a: nat, k: nat): (d: nat)
    requires a < SizeModulus && k < SizeModulus
    ensures d < SizeModulus
    ensures a >= k ==> d == a - k
    ensures a < k ==> d == a + SizeModulus - k
  {
    if a >= k then a - k else a + SizeModulus - k
  }

  /** internal_validation_capture_tree_apply_law_of_quantity on one node, with budget `value`. */
  function PruneQuantity<T>(t: Tree<T>, value: nat): Tree<T>
    requires value < SizeModulus
    decreases t, 1
  {
    Node(t.data, QuantityChildren(t.children, value))
  }

  /** The children that survive the budget, each pruned with one level less. */
  function QuantityChildren<T>(cs: seq<Tree<T>>, value: nat): seq<Tree<T>>
    requires value < SizeModulus
    decreases cs, 0
  {
    if |cs| == 0 then [] else
      var last := cs[|cs| - 1];
      var rest := QuantityChildren(cs[..|cs| - 1], value);
      if Height(last) < SizeSub(value, 1) then rest else rest + [PruneQuantity(last, SizeSub(value, 1))]
  }

  /** Every path from t down to a leaf has exactly d edges. */
  predicate LeavesAt<T>(t: Tree<T>, d: nat)
    decreases t
  {
    if |t.children| == 0 then d == 0
    else d > 0 && forall i :: 0 <= i < |t.children| ==> LeavesAt(t.children[i], d - 1)
  }

  lemma {:induction false} LeavesAtHeight<T>(t: Tree<T>, d: nat)
    requires LeavesAt(t, d)
    ensures Height(t) == d
    decreases t
  {
    HeightOfChildren(t);
    if |t.children| > 0 {
      forall i | 0 <= i < |t.children|
        ensures Height(t.children[i]) == d - 1
      {
        LeavesAtHeight(t.children[i], d - 1);
      }
    }
  }

  /** With the budget equal to the height, pruning keeps every path at full length and keeps a child. */
  lemma {:induction false} PruneQuantityAtHeight<T>(t: Tree<T>, value: nat)
    requires value == Height(t) && value < SizeModulus
    ensures LeavesAt(PruneQuantity(t, value), value)
    ensures |t.children| > 0 ==> |PruneQuantity(t, value).children| > 0
    decreases t, 1
  {
    HeightOfChildren(t);
    if |t.children| > 0 {
      var tallest :| 0 <= tallest < |t.children| && Height(t.children[tallest]) + 1 == Height(t);
      QuantityChildrenAtHeight(t.children, value);
      var q := PruneQuantity(t, value);
      assert q.children == QuantityChildren(t.children, value);
      assert |q.children| > 0;
      assert forall i :: 0 <= i < |q.children| ==> LeavesAt(q.children[i], value - 1);
      assert value > 0;
      assert LeavesAt(q, value);
    } else {
      assert PruneQuantity(t, value).children == [];
    }
  }

  lemma {:induction false} QuantityChildrenAtHeight<T>(cs: seq<Tree<T>>, value: nat)
    requires 1 <= value < SizeModulus
    requires forall i :: 0 <= i < |cs| ==> Height(cs[i]) <= value - 1
    ensures forall i :: 0 <= i < |QuantityChildren(cs, value)| ==> LeavesAt(QuantityChildren(cs, value)[i], value - 1)
    ensures (exists i :: 0 <= i < |cs| && Height(cs[i]) == value - 1) ==> |QuantityChildren(cs, value)| > 0
    decreases cs, 0
  {
    if |cs| > 0 {
      var init := cs[..|cs| - 1];
      var last := cs[|cs| - 1];
      assert forall i :: 0 <= i < |init| ==> init[i] == cs[i];
      QuantityChildrenAtHeight(init, value);
      if Height(last) >= value - 1 {
        PruneQuantityAtHeight(last, value - 1);
      }
    }
  }

  /** A tree whose paths all have length d is left unchanged by pruning with budget d. */
  lemma {:induction false} PruneQuantityFixed<T>(t: Tree<T>, d: nat)
    requires LeavesAt(t, d) && d < SizeModulus
    ensures PruneQuantity(t, d) == t
    decreases t, 1
  {
    if |t.children| > 0 {
      QuantityChildrenFixed(t.children, d);
    }
  }

  lemma {:induction false} QuantityChildrenFixed<T>(cs: seq<Tree<T>>, d: nat)
    requires 1 <= d < SizeModulus
    requires forall i :: 0 <= i < |cs| ==> LeavesAt(cs[i], d - 1)
    ensures QuantityChildren(cs, d) == cs
    decreases cs, 0
  {
    if |cs| > 0 {
      var init := cs[..|cs| - 1];
      assert forall i :: 0 <= i < |init| ==> init[i] == cs[i];
      QuantityChildrenFixed(init, d);
      LeavesAtHeight(cs[|cs| - 1], d - 1);
      PruneQuantityFixed(cs[|cs| - 1], d - 1);
    }
  }

  /** The payloads of a list of subtrees. */
  function Payloads<T>(cs: seq<Tree<T>>): (ds: seq<T>)
    ensures |ds| == |cs| && forall i :: 0 <= i < |cs| ==> ds[i] == cs[i].data
  {
    if |cs| == 0 then [] else Payloads(cs[..|cs| - 1]) + [cs[|cs| - 1].data]
  }

  /** `a` sits in `b` at the strictly increasing positions `idx`. */
  ghost predicate EmbedsAt<T>(a: seq<T>, b: seq<T>, idx: seq<nat>)
  {
    |idx| == |a| &&
    (forall k :: 0 <= k < |idx| ==> idx[k] < |b| && b[idx[k]] == a[k]) &&
    (forall k, k' :: 0 <= k < k' < |idx| ==> idx[k] < idx[k'])
  }

  /** The surviving children keep their payloads and their relative order. */
  lemma {:induction false} QuantityKeepsOrder<T>(cs: seq<Tree<T>>, value: nat) returns (idx: seq<nat>)
    requires value < SizeModulus
    ensures EmbedsAt(Payloads(QuantityChildren(cs, value)), Payloads(cs), idx)
    ensures forall k :: 0 <= k < |idx| ==> idx[k] < |cs|
  {
    if |cs| == 0 {
      idx := [];
    } else {
      var init := cs[..|cs| - 1];
      idx := QuantityKeepsOrder(init, value);
      var last := cs[|cs| - 1];
      if Height(last) >= SizeSub(value, 1) {
        idx := idx + [|cs| - 1];
      }
    }
  }

  /** Every tree of `kept` carries the data of some tree of `cs`. */
  ghost predicate DataDrawnFrom<T>(kept: seq<Tree<T>>, cs: seq<Tree<T>>)
  {
    forall j :: 0 <= j < |kept| ==> exists i :: 0 <= i < |cs| && kept[j].data == cs[i].data
  }

  lemma DataDrawnFromTransitive<T>(a: seq<Tree<T>>, b: seq<Tree<T>>, c: seq<Tree<T>>)
    requires DataDrawnFrom(a, b) && DataDrawnFrom(b, c)
    ensures DataDrawnFrom(a, c)
  {
    forall j | 0 <= j < |a|
      ensures exists k :: 0 <= k < |c| && a[j].data == c[k].data
    {
      var i :| 0 <= i < |b| && a[j].data == b[i].data;
      var k :| 0 <= k < |c| && b[i].data == c[k].data;
    }
    assert forall j :: 0 <= j < |a| ==> exists k :: 0 <= k < |c| && a[j].data == c[k].data;
  }

  /** The law of quantity only removes children: each survivor carries an original child's move. */
  lemma QuantityChildrenDrawnFrom<T>(cs: seq<Tree<T>>, value: nat)
    requires value < SizeModulus
    ensures DataDrawnFrom(QuantityChildren(cs, value), cs)
  {
    var idx := QuantityKeepsOrder(cs, value);
    var kept := QuantityChildren(cs, value);
    forall j | 0 <= j < |kept|
      ensures exists i :: 0 <= i < |cs| && kept[j].data == cs[i].data
    {
      assert Payloads(kept)[j] == Payloads(cs)[idx[j]];
      assert kept[j].data == cs[idx[j]].data;
    }
  }

  /** validation_capture_tree_apply_law_of_quantity: prune with the tree's own height as budget. */
  function LawOfQuantity<T>(t: Tree<T>): Tree<T>
    requires Height(t) < SizeModulus
  {
    PruneQuantity(t, Height(t))
  }

  /**
   * After the law of quantity every root-to-leaf path has the original maximum length,
   * the maximum depth is unchanged, a root with children keeps at least one, and a
   * second application changes nothing.
   */
  lemma LawOfQuantityProperties<T>(t: Tree<T>)
    requires Height(t) < SizeModulus
    ensures LeavesAt(LawOfQuantity(t), Height(t))
    ensures Height(LawOfQuantity(t)) == Height(t)
    ensures LawOfQuantity(t).data == t.data
    ensures |t.children| > 0 ==> |LawOfQuantity(t).children| > 0
    ensures LawOfQuantity(LawOfQuantity(t)) == LawOfQuantity(t)
  {
    var q := LawOfQuantity(t);
    PruneQuantityAtHeight(t, Height(t));
    LeavesAtHeight(q, Height(t));
    PruneQuantityFixed(q, Height(t));
  }

  /**
   * While a node has children its budget, which equals its height, is at least 1, so
   * `value - 1` does not wrap around.
   */
  lemma QuantityBudgetNoWrap<T>(t: Tree<T>)
    requires |t.children| > 0 && Height(t) < SizeModulus
    ensures SizeSub(Height(t), 1) == Height(t) - 1
  {
    HeightOfChildren(t);
  }

  /** internal_validation_capture_tree_apply_law_of_quantity, with its remove-and-step-back loop. */
  method ApplyQuantityAt<T>(t: Tree<T>, value: nat) returns (u: Tree<T>)
    requires value < SizeModulus
    ensures u == PruneQuantity(t, value)
    decreases t
  {
    u := t;
    var i: int := 0;
    ghost var j := 0;
    while i < |u.children|
      invariant 0 <= i <= |u.children| && 0 <= j <= |t.children|
      invariant u.data == t.data
      invariant u.children[..i] == QuantityChildren(t.children[..j], value)
      invariant u.children[i..] == t.children[j..]
      decreases |u.children| - i
    {
      assert u.children[i] == t.children[j];
      assert t.children[..j + 1][..j] == t.children[..j];
      var maxDepth := MaxDepth(u.children[i]);
      if maxDepth < SizeSub(value, 1) {
        u := RemoveSubtree(u, i);
        i := i - 1;
      } else {
        var pruned := ApplyQuantityAt(u.children[i], SizeSub(value, 1));
        u := Node(u.data, u.children[i := pruned]);
      }
      j := j + 1;
      i := i + 1;
    }
    assert t.children[..j] == t.children;
  }

  /** validation_capture_tree_apply_law_of_quantity. */
  method ApplyLawOfQuantity<T>(t: Tree<T>) returns (u: Tree<T>)
    requires Height(t) < SizeModulus
    ensures u == LawOfQuantity(t)
  {
    var depth := MaxDepth(t);
    u := ApplyQuantityAt(t, depth);
  }
}
