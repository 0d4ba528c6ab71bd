/** Row-vector by matrix products and the max / indexOf / argmax idiom of the engine. */
module Linear {

  /** Sum over the first k rows of a[i] * m[i, j]: column j of a·m, partially accumulated. */
  function Dot(a: seq<real>, m: array2<real>, j: nat, k: nat): real
    reads m
    requires k <= |a| && k <= m.Length0 && j < m.Length1
  {
    if k == 0 then 0.0 else Dot(a, m, j, k - 1) + a[k - 1] * m[k - 1, j]
  }

  /** The row vector a·m, i.e. `matMul([a], m)[0]`. */
  function RowProduct(a: seq<real>, m: array2<real>): (r: seq<real>)
    reads m
    requires |a| == m.Length0
    ensures |r| == m.Length1
  {
    seq(m.Length1, j requires 0 <= j < m.Length1 reads m => Dot(a, m, j, |a|))
  }

  /** matMul([a], m)[0]: the result row starts at zero and accumulates a[k] * m[k, j]
      for every column j (outer loop) and row k (inner loop). */
  method MatMulRow(a: seq<real>, m: array2<real>) returns (r: seq<real>)
    requires |a| == m.Length0
    ensures r == RowProduct(a, m)
  {
    r := seq(m.Length1, _ => 0.0);
    for j := 0 to m.Length1
      invariant |r| == m.Length1
      invariant forall c :: 0 <= c < j ==> r[c] == Dot(a, m, c, |a|)
      invariant forall c :: j <= c < m.Length1 ==> r[c] == 0.0
    {
      for k := 0 to |a|
        invariant |r| == m.Length1
        invariant r[j] == Dot(a, m, j, k)
        invariant forall c :: 0 <= c < j ==> r[c] == Dot(a, m, c, |a|)
        invariant forall c :: j < c < m.Length1 ==> r[c] == 0.0
      {
        r := r[j := r[j] + a[k] * m[k, j]];
      }
    }
  }

  /** A column that is zero in its first k rows contributes nothing. */
  lemma {:induction false} DotOfZeroColumn(a: seq<real>, m: array2<real>, j: nat, k: nat)
    requires k <= |a| && k <= m.Length0 && j < m.Length1
    requires forall i :: 0 <= i < k ==> m[i, j] == 0.0
    ensures Dot(a, m, j, k) == 0.0
  {
    if k > 0 {
      DotOfZeroColumn(a, m, j, k - 1);
    }
  }

  /** Math.max(...s) on a non-empty sequence. */
  function MaxOf(s: seq<real>): (r: real)
    requires |s| > 0
    ensures r in s
    ensures forall i :: 0 <= i < |s| ==> s[i] <= r
  {
    if |s| == 1 then s[0]
    else
      var rest := MaxOf(s[1..]);
      if s[0] > rest then s[0] else rest
  }

  /** s.indexOf(x): the first position holding x, or -1 when there is none. */
  function IndexOf(s: seq<real>, x: real): (k: int)
    ensures -1 <= k < |s|
    ensures k == -1 <==> x !in s
    ensures 0 <= k ==> s[k] == x && forall i :: 0 <= i < k ==> s[i] != x
  {
    if |s| == 0 then -1
    else if s[0] == x then 0
    else
      var k := IndexOf(s[1..], x);
      if k == -1 then -1 else k + 1
  }

  /** s.indexOf(Math.max(...s)): the first position of a maximal element. */
  function ArgMax(s: seq<real>): (k: nat)
    requires |s| > 0
    ensures k < |s|
    ensures forall i :: 0 <= i < |s| ==> s[i] <= s[k]
    ensures forall i :: 0 <= i < k ==> s[i] < s[k]
  {
    IndexOf(s, MaxOf(s))
  }

  /** The two properties of ArgMax pin it down: any index that is maximal and beats
      every earlier entry strictly is the ArgMax (ties go to the lowest index). */
  lemma ArgMaxIsFirstMaximum(s: seq<real>, k: nat)
    requires k < |s|
    requires forall i :: 0 <= i < |s| ==> s[i] <= s[k]
    requires forall i :: 0 <= i < k ==> s[i] < s[k]
    ensures ArgMax(s) == k
  {
  }

  /** When all entries are equal, the lowest index wins. */
  lemma ArgMaxOfConstant(s: seq<real>)
    requires |s| > 0
    requires forall i :: 0 <= i < |s| ==> s[i] == s[0]
    ensures ArgMax(s) == 0
  {
  }

  /** A zero matrix yields an all-zero product, whose argmax is 0. */
  lemma ArgMaxOfZeroMatrix(a: seq<real>, m: array2<real>)
    requires |a| == m.Length0 && m.Length1 > 0
    requires forall i, j :: 0 <= i < m.Length0 && 0 <= j < m.Length1 ==> m[i, j] == 0.0
    ensures forall j :: 0 <= j < m.Length1 ==> RowProduct(a, m)[j] == 0.0
    ensures ArgMax(RowProduct(a, m)) == 0
  {
    var r := RowProduct(a, m);
    forall j | 0 <= j < m.Length1
      ensures r[j] == 0.0
    {
      DotOfZeroColumn(a, m, j, |a|);
    }
    ArgMaxOfConstant(r);
  }
}
