/** The element-wise weight rules of the engine (delta rule, Hebbian rule, threshold
    pruning) and the in-place matrix loops that apply them. */
module Learning {
  import opened Params

  function Abs(x: real): real { if x < 0.0 then -x else x }

  /** x lies on the closed segment between a and b. */
  predicate Between(x: real, a: real, b: real) {
    (a <= x <= b) || (b <= x <= a)
  }

  /** One delta-rule step: `w += eta * act * (target - w)`. */
  function DeltaStep(w: real, act: real, target: real): real {
    w + Eta * act * (target - w)
  }

  /** One Hebbian step: `v += eta * pre * post`. */
  function HebbStep(v: real, pre: real, post: real): real {
    v + Eta * pre * post
  }

  /** `if (Math.abs(x) < theta) x = 0`. */
  function Prune(x: real, theta: real): real {
    if Abs(x) < theta then 0.0 else x
  }

  /** With an activation in [0,1] the delta rule moves a weight toward its target
      without overshooting it: the remaining gap shrinks by the factor 1 - eta*act,
      a weight already at its target stays put, and a positive activation makes
      strict progress. */
  lemma DeltaStepTowardTarget(w: real, act: real, target: real)
    requires 0.0 <= act <= 1.0
    ensures Between(DeltaStep(w, act, target), w, target)
    ensures target - DeltaStep(w, act, target) == (1.0 - Eta * act) * (target - w)
    ensures Abs(target - DeltaStep(w, act, target)) <= Abs(target - w)
    ensures w == target ==> DeltaStep(w, act, target) == w
    ensures 0.0 < act && w != target ==> DeltaStep(w, act, target) != w
  {
    var c := Eta * act;
    var g := target - w;
    assert 0.0 <= c <= 0.01;
    assert DeltaStep(w, act, target) == w + c * g;
    assert target - (w + c * g) == (1.0 - c) * g;
    if g >= 0.0 {
      assert c * g >= 0.0;
      assert (1.0 - c) * g >= 0.0;
      assert (1.0 - c) * g <= g;
    } else {
      assert c * g <= 0.0;
      assert (1.0 - c) * g <= 0.0;
      assert (1.0 - c) * g >= g;
    }
    if 0.0 < act && g != 0.0 {
      assert c > 0.0;
      assert c * g != 0.0;
    }
  }

  /** A weight that already lies between 0 and 1 stays there when it is moved toward
      a target in [0,1] (the vocabulary targets are 0/1 vectors). */
  lemma DeltaStepStaysInUnit(w: real, act: real, target: real)
    requires 0.0 <= act <= 1.0
    requires 0.0 <= w <= 1.0 && 0.0 <= target <= 1.0
    ensures 0.0 <= DeltaStep(w, act, target) <= 1.0
  {
    DeltaStepTowardTarget(w, act, target);
  }

  /** With non-negative activations the Hebbian rule never decreases a weight, and with
      activations at most 1 it raises it by at most eta. */
  lemma HebbStepMonotone(v: real, pre: real, post: real)
    requires 0.0 <= pre <= 1.0 && 0.0 <= post <= 1.0
    ensures v <= HebbStep(v, pre, post) <= v + Eta
    ensures HebbStep(v, pre, post) == v <==> pre == 0.0 || post == 0.0
  {
    assert 0.0 <= pre * post <= 1.0 by {
      assert pre * post <= pre * 1.0;
    }
    if pre != 0.0 && post != 0.0 {
      assert pre * post > 0.0;
      assert Eta * (pre * post) > 0.0;
    }
    assert Eta * pre * post == Eta * (pre * post);
  }

  /** Pruning zeroes exactly the values below the threshold and keeps every other one;
      what it leaves is 0 or at least theta in magnitude, so pruning twice is pruning once. */
  lemma PruneExactly(x: real, theta: real)
    requires theta > 0.0
    ensures Abs(x) < theta ==> Prune(x, theta) == 0.0
    ensures Abs(x) >= theta ==> Prune(x, theta) == x
    ensures Prune(x, theta) == 0.0 || Abs(Prune(x, theta)) >= theta
    ensures Prune(Prune(x, theta), theta) == Prune(x, theta)
  {
  }

  /** Element-wise delta rule on a whole matrix: row i is gated by act[i], column j
      is pulled toward target[j] (updateSensoryWeights, updateVocabularyWeights). */
  method ApplyDeltaRule(m: array2<real>, act: seq<real>, target: seq<real>)
    requires |act| == m.Length0 && |target| == m.Length1
    modifies m
    ensures forall i, j :: 0 <= i < m.Length0 && 0 <= j < m.Length1 ==>
      m[i, j] == DeltaStep(old(m[i, j]), act[i], target[j])
  {
    for i := 0 to m.Length0
      invariant forall r, c :: 0 <= r < i && 0 <= c < m.Length1 ==>
        m[r, c] == DeltaStep(old(m[r, c]), act[r], target[c])
      invariant forall r, c :: i <= r < m.Length0 && 0 <= c < m.Length1 ==> m[r, c] == old(m[r, c])
    {
      for j := 0 to m.Length1
        invariant forall r, c :: 0 <= r < i && 0 <= c < m.Length1 ==>
          m[r, c] == DeltaStep(old(m[r, c]), act[r], target[c])
        invariant forall c :: 0 <= c < j ==> m[i, c] == DeltaStep(old(m[i, c]), act[i], target[c])
        invariant forall r, c :: i <= r < m.Length0 && 0 <= c < m.Length1 && (r > i || c >= j) ==>
          m[r, c] == old(m[r, c])
      {
        m[i, j] := m[i, j] + Eta * act[i] * (target[j] - m[i, j]);
      }
    }
  }

  /** Element-wise Hebbian rule: m[i, k] grows by eta * pre[i] * post[k]
      (updateAssociationWeights). */
  method ApplyHebbian(m: array2<real>, pre: seq<real>, post: seq<real>)
    requires |pre| == m.Length0 && |post| == m.Length1
    modifies m
    ensures forall i, k :: 0 <= i < m.Length0 && 0 <= k < m.Length1 ==>
      m[i, k] == HebbStep(old(m[i, k]), pre[i], post[k])
  {
    for i := 0 to m.Length0
      invariant forall r, c :: 0 <= r < i && 0 <= c < m.Length1 ==>
        m[r, c] == HebbStep(old(m[r, c]), pre[r], post[c])
      invariant forall r, c :: i <= r < m.Length0 && 0 <= c < m.Length1 ==> m[r, c] == old(m[r, c])
    {
      for k := 0 to m.Length1
        invariant forall r, c :: 0 <= r < i && 0 <= c < m.Length1 ==>
          m[r, c] == HebbStep(old(m[r, c]), pre[r], post[c])
        invariant forall c :: 0 <= c < k ==> m[i, c] == HebbStep(old(m[i, c]), pre[i], post[c])
        invariant forall r, c :: i <= r < m.Length0 && 0 <= c < m.Length1 && (r > i || c >= k) ==>
          m[r, c] == old(m[r, c])
      {
        m[i, k] := m[i, k] + Eta * pre[i] * post[k];
      }
    }
  }

  /** Delta rule on one column only: entry (i, col) moves toward target, gated by act[i];
      every other column is left alone (updateActionWeights). */
  method ApplyDeltaColumn(m: array2<real>, col: nat, act: seq<real>, target: real)
    requires col < m.Length1 && |act| == m.Length0
    modifies m
    ensures forall i, j :: 0 <= i < m.Length0 && 0 <= j < m.Length1 ==>
      m[i, j] == if j == col then DeltaStep(old(m[i, j]), act[i], target) else old(m[i, j])
  {
    for i := 0 to m.Length0
      invariant forall r, c :: 0 <= r < m.Length0 && 0 <= c < m.Length1 ==>
        m[r, c] == if c == col && r < i then DeltaStep(old(m[r, c]), act[r], target) else old(m[r, c])
    {
      m[i, col] := m[i, col] + Eta * act[i] * (target - m[i, col]);
    }
  }

  /** Prunes row i of m in place and leaves every other row alone. */
  method PruneRow(m: array2<real>, i: nat, theta: real)
    requires i < m.Length0
    modifies m
    ensures forall c :: 0 <= c < m.Length1 ==> m[i, c] == Prune(old(m[i, c]), theta)
    ensures forall r, c :: 0 <= r < m.Length0 && r != i && 0 <= c < m.Length1 ==> m[r, c] == old(m[r, c])
  {
    for j := 0 to m.Length1
      invariant forall c :: 0 <= c < j ==> m[i, c] == Prune(old(m[i, c]), theta)
      invariant forall c :: j <= c < m.Length1 ==> m[i, c] == old(m[i, c])
      invariant forall r, c :: 0 <= r < m.Length0 && r != i && 0 <= c < m.Length1 ==> m[r, c] == old(m[r, c])
    {
      if Abs(m[i, j]) < theta {
        m[i, j] := 0.0;
      }
    }
  }
}
