/**
 * The law of quality: only the capture chains of highest value survive, where taking a
 * queen is worth 2 and taking a peon 1, both read on the board the tree was built from.
 */
module Quality {
  import opened Common
  import opened Pieces
  import opened Board
  import opened Trees
  import opened Quantity

  /** A capture tree: the root carries no move, every other node the capture that reaches it. */
  type CaptureTree = Tree<Option<Move>>

  /** The value of the capture at a node: 2 when its capture cell holds a queen on `b`, 1 otherwise. */
  function Points(b: seq<int>, node: CaptureTree): (p: nat)
    ensures p == 1 || p == 2
    ensures node.data.Some? && node.data.value.capture < |b| ==> (p == 2 <==> IsQueen(b[node.data.value.capture]))
  {
    match node.data
    case Some(m) => if m.capture < |b| && IsQueen(b[m.capture]) then 2 else 1
    case None => 1
  }

  /** The largest value of a path from t down to any node below it. */
  function MaxPoints(b: seq<int>, t: CaptureTree): nat
    decreases t, 1
  {
    MaxChildPoints(b, t.children)
  }

  /** The largest value of a path that starts with one of cs, 0 for none. */
  function MaxChildPoints(b: seq<int>, cs: seq<CaptureTree>): nat
    decreases cs, 0
  {
    if |cs| == 0 then 0
    else Max(MaxChildPoints(b, cs[..|cs| - 1]), Points(b, cs[|cs| - 1]) + MaxPoints(b, cs[|cs| - 1]))
  }

  lemma {:induction false} MaxChildPointsIsMaximum(b: seq<int>, cs: seq<CaptureTree>)
    ensures forall i :: 0 <= i < |cs| ==> Points(b, cs[i]) + MaxPoints(b, cs[i]) <= MaxChildPoints(b, cs)
    ensures |cs| > 0 ==> exists i :: 0 <= i < |cs| && Points(b, cs[i]) + MaxPoints(b, cs[i]) == MaxChildPoints(b, cs)
    ensures |cs| == 0 ==> MaxChildPoints(b, cs) == 0
  {
    if |cs| > 0 {
      var init := cs[..|cs| - 1];
      var last := cs[|cs| - 1];
      MaxChildPointsIsMaximum(b, init);
      assert forall i :: 0 <= i < |init| ==> cs[i] == init[i];
      if Points(b, last) + MaxPoints(b, last) < MaxChildPoints(b, init) {
        var i :| 0 <= i < |init| && Points(b, init[i]) + MaxPoints(b, init[i]) == MaxChildPoints(b, init);
        assert Points(b, cs[i]) + MaxPoints(b, cs[i]) == MaxChildPoints(b, cs);
      } else {
        assert Points(b, cs[|cs| - 1]) + MaxPoints(b, cs[|cs| - 1]) == MaxChildPoints(b, cs);
      }
    }
  }

  /** internal_validation_capture_tree_apply_law_of_quality on one node, with budget `value`. */
  function PruneQuality(b: seq<int>, t: CaptureTree, value: nat): CaptureTree
    requires value < SizeModulus
    decreases t, 1
  {
    Node(t.data, QualityChildren(b, t.children, value))
  }

  /** The children whose best chain still reaches the budget, each pruned with the rest of it. */
  function QualityChildren(b: seq<int>, cs: seq<CaptureTree>, value: nat): seq<CaptureTree>
    requires value < SizeModulus
    decreases cs, 0
  {
    if |cs| == 0 then [] else
      var last := cs[|cs| - 1];
      var rest := QualityChildren(b, cs[..|cs| - 1], value);
      var remaining := SizeSub(value, Points(b, last));
      if MaxPoints(b, last) < remaining then rest else rest + [PruneQuality(b, last, remaining)]
  }

  /** The law of quality only removes children: each survivor carries an original child's move. */
  lemma {:induction false} QualityChildrenDrawnFrom(b: seq<int>, cs: seq<CaptureTree>, value: nat)
    requires value < SizeModulus
    ensures DataDrawnFrom(QualityChildren(b, cs, value), cs)
  {
    if |cs| > 0 {
      var init := cs[..|cs| - 1];
      QualityChildrenDrawnFrom(b, init, value);
      var kept := QualityChildren(b, cs, value);
      var rest := QualityChildren(b, init, value);
      forall j | 0 <= j < |kept|
        ensures exists i :: 0 <= i < |cs| && kept[j].data == cs[i].data
      {
        if j < |rest| {
          assert kept[j] == rest[j];
          var i :| 0 <= i < |init| && rest[j].data == init[i].data;
          assert cs[i] == init[i];
        } else {
          var last := cs[|cs| - 1];
          var remaining := SizeSub(value, Points(b, last));
          assert kept == rest + [PruneQuality(b, last, remaining)];
          assert kept[j] == PruneQuality(b, last, remaining);
        }
      }
    }
  }

  /** Every path from t down to a leaf is worth exactly v. */
  predicate PathsWorth(b: seq<int>, t: CaptureTree, v: nat)
    decreases t
  {
    if |t.children| == 0 then v == 0
    else forall i :: 0 <= i < |t.children| ==>
      Points(b, t.children[i]) <= v && PathsWorth(b, t.children[i], v - Points(b, t.children[i]))
  }

  lemma {:induction false} PathsWorthMax(b: seq<int>, t: CaptureTree, v: nat)
    requires PathsWorth(b, t, v)
    ensures MaxPoints(b, t) == v
    decreases t
  {
    MaxChildPointsIsMaximum(b, t.children);
    if |t.children| > 0 {
      forall i | 0 <= i < |t.children|
        ensures Points(b, t.children[i]) + MaxPoints(b, t.children[i]) == v
      {
        PathsWorthMax(b, t.children[i], v - Points(b, t.children[i]));
      }
      var i :| 0 <= i < |t.children| && Points(b, t.children[i]) + MaxPoints(b, t.children[i]) == MaxChildPoints(b, t.children);
    }
  }

  /** With the budget equal to the best value, every surviving path is worth exactly the budget. */
  lemma {:induction false} PruneQualityAtMax(b: seq<int>, t: CaptureTree, value: nat)
    requires value == MaxPoints(b, t) && value < SizeModulus
    ensures PathsWorth(b, PruneQuality(b, t, value), value)
    ensures |t.children| > 0 ==> |PruneQuality(b, t, value).children| > 0
    decreases t, 1
  {
    MaxChildPointsIsMaximum(b, t.children);
    var q := PruneQuality(b, t, value);
    assert q.children == QualityChildren(b, t.children, value);
    if |t.children| > 0 {
      var best :| 0 <= best < |t.children| &&
        Points(b, t.children[best]) + MaxPoints(b, t.children[best]) == MaxChildPoints(b, t.children);
      QualityChildrenAtMax(b, t.children, value);
      assert |q.children| > 0;
      assert PathsWorth(b, q, value);
    } else {
      assert q.children == [];
    }
  }

  lemma {:induction false} QualityChildrenAtMax(b: seq<int>, cs: seq<CaptureTree>, value: nat)
    requires value < SizeModulus
    requires forall i :: 0 <= i < |cs| ==> Points(b, cs[i]) + MaxPoints(b, cs[i]) <= value
    ensures forall i :: 0 <= i < |QualityChildren(b, cs, value)| ==>
      var x := QualityChildren(b, cs, value)[i];
      Points(b, x) <= value && PathsWorth(b, x, value - Points(b, x))
    ensures (exists i :: 0 <= i < |cs| && Points(b, cs[i]) + MaxPoints(b, cs[i]) == value) ==>
      |QualityChildren(b, cs, value)| > 0
    decreases cs, 0
  {
    if |cs| > 0 {
      var init := cs[..|cs| - 1];
      var last := cs[|cs| - 1];
      assert forall i :: 0 <= i < |init| ==> init[i] == cs[i];
      QualityChildrenAtMax(b, init, value);
      var remaining := SizeSub(value, Points(b, last));
      if MaxPoints(b, last) >= remaining {
        PruneQualityAtMax(b, last, remaining);
      }
    }
  }

  /** A tree whose paths are all worth v is left unchanged by pruning with budget v. */
  lemma {:induction false} PruneQualityFixed(b: seq<int>, t: CaptureTree, v: nat)
    requires PathsWorth(b, t, v) && v < SizeModulus
    ensures PruneQuality(b, t, v) == t
    decreases t, 1
  {
    QualityChildrenFixed(b, t.children, v);
  }

  lemma {:induction false} QualityChildrenFixed(b: seq<int>, cs: seq<CaptureTree>, v: nat)
    requires v < SizeModulus
    requires forall i :: 0 <= i < |cs| ==> Points(b, cs[i]) <= v && PathsWorth(b, cs[i], v - Points(b, cs[i]))
    ensures QualityChildren(b, cs, v) == cs
    decreases cs, 0
  {
    if |cs| > 0 {
      var init := cs[..|cs| - 1];
      var last := cs[|cs| - 1];
      assert forall i :: 0 <= i < |init| ==> init[i] == cs[i];
      QualityChildrenFixed(b, init, v);
      PathsWorthMax(b, last, v - Points(b, last));
      PruneQualityFixed(b, last, v - Points(b, last));
    }
  }

  /** validation_capture_tree_apply_law_of_quality: prune with the tree's best value as budget. */
  function LawOfQuality(b: seq<int>, t: CaptureTree): CaptureTree
    requires MaxPoints(b, t) < SizeModulus
  {
    PruneQuality(b, t, MaxPoints(b, t))
  }

  /**
   * After the law of quality every root-to-leaf path is worth the original best value,
   * the best value is unchanged, a root with children keeps at least one, and a second
   * application changes nothing.
   */
  lemma LawOfQualityProperties(b: seq<int>, t: CaptureTree)
    requires MaxPoints(b, t) < SizeModulus
    ensures PathsWorth(b, LawOfQuality(b, t), MaxPoints(b, t))
    ensures MaxPoints(b, LawOfQuality(b, t)) == MaxPoints(b, t)
    ensures LawOfQuality(b, t).data == t.data
    ensures |t.children| > 0 ==> |LawOfQuality(b, t).children| > 0
    ensures LawOfQuality(b, LawOfQuality(b, t)) == LawOfQuality(b, t)
  {
    var q := LawOfQuality(b, t);
    PruneQualityAtMax(b, t, MaxPoints(b, t));
    PathsWorthMax(b, q, MaxPoints(b, t));
    PruneQualityFixed(b, q, MaxPoints(b, t));
  }

  /** Below a node whose budget is its best value, `value - point_decrement` does not wrap around. */
  lemma QualityBudgetNoWrap(b: seq<int>, t: CaptureTree, i: nat)
    requires i < |t.children| && MaxPoints(b, t) < SizeModulus
    ensures SizeSub(MaxPoints(b, t), Points(b, t.children[i])) == MaxPoints(b, t) - Points(b, t.children[i])
  {
    MaxChildPointsIsMaximum(b, t.children);
  }

  /**
   * internal_validation_capture_tree_max_points: the running maximum `best` is raised to
   * the best value of a path below a node reached with `current` points.
   */
  method MaxPointsInto(b: seq<int>, t: CaptureTree, best: nat, current: nat) returns (result: nat)
    ensures result == Max(best, current + MaxPoints(b, t))
    decreases t
  {
    result := best;
    if current >= result {
      result := current;
    }
    for i := 0 to |t.children|
      invariant result == Max(Max(best, current), current + MaxChildPoints(b, t.children[..i]))
    {
      assert t.children[..i + 1][..i] == t.children[..i];
      result := MaxPointsInto(b, t.children[i], result, current + Points(b, t.children[i]));
    }
    assert t.children[..|t.children|] == t.children;
  }

  /** validation_capture_tree_max_points. */
  method MaxPointsOf(b: seq<int>, t: CaptureTree) returns (points: nat)
    ensures points == MaxPoints(b, t)
  {
    points := MaxPointsInto(b, t, 0, 0);
  }

  /** internal_validation_capture_tree_apply_law_of_quality, with its remove-and-step-back loop. */
  method ApplyQualityAt(b: seq<int>, t: CaptureTree, value: nat) returns (u: CaptureTree)
    requires value < SizeModulus
    ensures u == PruneQuality(b, t, value)
    decreases t
  {
    u := t;
    var i: int := 0;
    ghost var j := 0;
    while i < |u.children|
      invariant 0 <= i <= |u.children| && 0 <= j <= |t.children|
      invariant u.data == t.data
      invariant u.children[..i] == QualityChildren(b, t.children[..j], value)
      invariant u.children[i..] == t.children[j..]
      decreases |u.children| - i
    {
      assert u.children[i] == t.children[j];
      assert t.children[..j + 1][..j] == t.children[..j];
      var maxPoints := MaxPointsOf(b, u.children[i]);
      var pointDecrement := Points(b, u.children[i]);
      if maxPoints < SizeSub(value, pointDecrement) {
        u := RemoveSubtree(u, i);
        i := i - 1;
      } else {
        var pruned := ApplyQualityAt(b, u.children[i], SizeSub(value, pointDecrement));
        u := Node(u.data, u.children[i := pruned]);
      }
      j := j + 1;
      i := i + 1;
    }
    assert t.children[..j] == t.children;
  }

  /** validation_capture_tree_apply_law_of_quality. */
  method ApplyLawOfQuality(b: seq<int>, t: CaptureTree) returns (u: CaptureTree)
    requires MaxPoints(b, t) < SizeModulus
    ensures u == LawOfQuality(b, t)
  {
    var points := MaxPointsOf(b, t);
    u := ApplyQualityAt(b, t, points);
  }
}
