/** The engine's world state and the operations that update it in place: weight learning,
    pruning, action selection and movement, emotion, response synthesis, and the two
    sequences that drive them (an input event and an animation tick). */
module Engine {
  import opened Params
  import opened Linear
  import opened Learning
  import opened Encoders
  import opened Spatial
  import opened Emotion
  import opened Response

  /** The payload of a `response` event. */
  datatype ResponseEvent = ResponseEvent(
    code: string, english: string, emotions: seq<real>, confidence: real,
    triangle: Point, ball: Point, touch: bool)

  /** The sensory vector S = [...vision, ...sound, ...text]: vision bits first, then sound
      bits, then text bits, each entry the bit itself. */
  function Features(vision: seq<int>, sound: seq<int>, text: seq<int>): (S: seq<real>)
    ensures |S| == |vision| + |sound| + |text|
    ensures forall i :: 0 <= i < |vision| ==> S[i] == vision[i] as real
    ensures forall i :: 0 <= i < |sound| ==> S[|vision| + i] == sound[i] as real
    ensures forall i :: 0 <= i < |text| ==> S[|vision| + |sound| + i] == text[i] as real
  {
    var bits := vision + sound + text;
    seq(|bits|, i requires 0 <= i < |bits| => bits[i] as real)
  }

  /** Every entry of m is 0 or at least theta in magnitude: what pruning leaves. */
  ghost predicate PrunedMatrix(m: array2<real>, theta: real)
    reads m
  {
    forall i, j :: 0 <= i < m.Length0 && 0 <= j < m.Length1 ==> m[i, j] == 0.0 || Abs(m[i, j]) >= theta
  }

  class World {
    /** Sensory (n x d), associative (n x n), vocabulary (n x v) and reinforcement (n x a)
        weights, updated in place. */
    const W: array2<real>
    const V: array2<real>
    const M: array2<real>
    const Q: array2<real>
    /** Activations, emotions (happiness, sadness, frustration), relational memory,
        input counter, agent and target positions. */
    var A: seq<real>
    var E: seq<real>
    var G: seq<Fact>
    var t: nat
    var triangle: Point
    var ball: Point

    ghost predicate Valid()
      reads this
    {
      W.Length0 == N && W.Length1 == D && V.Length0 == N && V.Length1 == N
      && M.Length0 == N && M.Length1 == VocabSize && Q.Length0 == N && Q.Length1 == Actions
      && W != V && W != M && W != Q && V != M && V != Q && M != Q
      && |A| == N && InUnit(A) && |E| == 3 && InUnit(E)
      && InBox(triangle) && InBox(ball)
    }

    /** The initial state: W and V uniform in [-0.01, 0.01) from the given draws in [0,1),
        M and Q zero, A zero, neutral emotions, empty memory, counter 0, agent at
        (100,100), target at (150,150). */
    constructor (wDraw: (nat, nat) -> real, vDraw: (nat, nat) -> real)
      requires forall i: nat, j: nat :: IsDraw(wDraw(i, j)) && IsDraw(vDraw(i, j))
      ensures Valid() && fresh(W) && fresh(V) && fresh(M) && fresh(Q)
      ensures forall i, m :: 0 <= i < N && 0 <= m < D ==>
        W[i, m] == wDraw(i, m) * 0.02 - 0.01 && -0.01 <= W[i, m] < 0.01
      ensures forall i, k :: 0 <= i < N && 0 <= k < N ==>
        V[i, k] == vDraw(i, k) * 0.02 - 0.01 && -0.01 <= V[i, k] < 0.01
      ensures forall i, j :: 0 <= i < N && 0 <= j < VocabSize ==> M[i, j] == 0.0
      ensures forall i, j :: 0 <= i < N && 0 <= j < Actions ==> Q[i, j] == 0.0
      ensures A == seq(N, _ => 0.0) && E == [0.5, 0.5, 0.5] && G == [] && t == 0
      ensures triangle == Point(100.0, 100.0) && ball == Point(150.0, 150.0)
    {
      W := new real[N, D]((i: nat, m: nat) => wDraw(i, m) * 0.02 - 0.01);
      V := new real[N, N]((i: nat, k: nat) => vDraw(i, k) * 0.02 - 0.01);
      M := new real[N, VocabSize]((_, _) => 0.0);
      Q := new real[N, Actions]((_, _) => 0.0);
      A := seq(N, _ => 0.0);
      E := [0.5, 0.5, 0.5];
      G := [];
      t := 0;
      triangle := Point(100.0, 100.0);
      ball := Point(150.0, 150.0);
    }

    /** updateSensoryWeights: W moves toward the sensory vector, row i gated by A[i]. */
    method UpdateSensoryWeights(S: seq<real>)
      requires Valid() && |S| == D
      modifies W
      ensures forall i, m :: 0 <= i < N && 0 <= m < D ==> W[i, m] == DeltaStep(old(W[i, m]), A[i], S[m])
    {
      ApplyDeltaRule(W, A, S);
    }

    /** updateAssociationWeights: V[i, k] grows with the previous activation of i times the
        current activation of k. */
    method UpdateAssociationWeights(aPrev: seq<real>)
      requires Valid() && |aPrev| == N
      modifies V
      ensures forall i, k :: 0 <= i < N && 0 <= k < N ==> V[i, k] == HebbStep(old(V[i, k]), aPrev[i], A[k])
    {
      ApplyHebbian(V, aPrev, A);
    }

    /** updateVocabularyWeights: M moves toward the vocabulary target, row i gated by A[i]. */
    method UpdateVocabularyWeights(target: seq<real>)
      requires Valid() && |target| == VocabSize
      modifies M
      ensures forall i, j :: 0 <= i < N && 0 <= j < VocabSize ==> M[i, j] == DeltaStep(old(M[i, j]), A[i], target[j])
    {
      ApplyDeltaRule(M, A, target);
    }

    /** updateActionWeights: only column `action` of Q changes; each of its entries moves
        toward reward + gamma * max(A·Q), computed once from the Q before the update and
        from the current (not a next-state) activation. */
    method UpdateActionWeights(action: nat, reward: real)
      requires Valid() && action < Actions
      modifies Q
      ensures var target := reward + Gamma * MaxOf(old(RowProduct(A, Q)));
        forall i, j :: 0 <= i < N && 0 <= j < Actions ==>
          Q[i, j] == if j == action then DeltaStep(old(Q[i, j]), A[i], target) else old(Q[i, j])
    {
      var scores := MatMulRow(A, Q);
      var target := reward + Gamma * MaxOf(scores);
      ApplyDeltaColumn(Q, action, A, target);
    }

    /** pruneWeights: every entry of the four matrices below its threshold becomes 0 and
        every other entry is kept; afterwards all four are pruned, so pruning already
        pruned weights changes nothing. */
    method PruneWeights()
      requires Valid()
      modifies W, V, M, Q
      ensures forall i, m :: 0 <= i < N && 0 <= m < D ==> W[i, m] == Prune(old(W[i, m]), ThetaW)
      ensures forall i, k :: 0 <= i < N && 0 <= k < N ==> V[i, k] == Prune(old(V[i, k]), ThetaV)
      ensures forall i, j :: 0 <= i < N && 0 <= j < VocabSize ==> M[i, j] == Prune(old(M[i, j]), ThetaM)
      ensures forall i, j :: 0 <= i < N && 0 <= j < Actions ==> Q[i, j] == Prune(old(Q[i, j]), ThetaQ)
      ensures PrunedMatrix(W, ThetaW) && PrunedMatrix(V, ThetaV) && PrunedMatrix(M, ThetaM) && PrunedMatrix(Q, ThetaQ)
      ensures old(PrunedMatrix(W, ThetaW)) ==> forall i, m :: 0 <= i < N && 0 <= m < D ==> W[i, m] == old(W[i, m])
      ensures old(PrunedMatrix(V, ThetaV)) ==> forall i, k :: 0 <= i < N && 0 <= k < N ==> V[i, k] == old(V[i, k])
      ensures old(PrunedMatrix(M, ThetaM)) ==> forall i, j :: 0 <= i < N && 0 <= j < VocabSize ==> M[i, j] == old(M[i, j])
      ensures old(PrunedMatrix(Q, ThetaQ)) ==> forall i, j :: 0 <= i < N && 0 <= j < Actions ==> Q[i, j] == old(Q[i, j])
    {
      for i := 0 to N
        invariant forall r, c :: 0 <= r < N && 0 <= c < D ==>
          W[r, c] == if r < i then Prune(old(W[r, c]), ThetaW) else old(W[r, c])
        invariant forall r, c :: 0 <= r < N && 0 <= c < N ==>
          V[r, c] == if r < i then Prune(old(V[r, c]), ThetaV) else old(V[r, c])
        invariant forall r, c :: 0 <= r < N && 0 <= c < VocabSize ==>
          M[r, c] == if r < i then Prune(old(M[r, c]), ThetaM) else old(M[r, c])
        invariant forall r, c :: 0 <= r < N && 0 <= c < Actions ==>
          Q[r, c] == if r < i then Prune(old(Q[r, c]), ThetaQ) else old(Q[r, c])
      {
        PruneRow(W, i, ThetaW);
        PruneRow(V, i, ThetaV);
        PruneRow(M, i, ThetaM);
        PruneRow(Q, i, ThetaQ);
      }
    }

    /** updateTriangle: the action is the first index of the largest score in A·Q (ties go
        to the lowest index), and the agent takes that action's clamped step. */
    method UpdateTriangle() returns (action: nat)
      requires Valid()
      modifies this`triangle
      ensures Valid()
      ensures action < Actions && action == ArgMax(RowProduct(A, Q))
      ensures triangle == StepTriangle(old(triangle), action)
    {
      var scores := MatMulRow(A, Q);
      action := ArgMax(scores);
      StepTriangleMoves(triangle, action);
      triangle := Point(Clamp(triangle.x + Moves[action].0), Clamp(triangle.y + Moves[action].1));
    }

    /** updateBall, with its two Math.random() draws given as r1 and r2. */
    method UpdateBall(touch: bool, r1: real, r2: real)
      requires Valid() && IsDraw(r1) && IsDraw(r2)
      modifies this`ball
      ensures Valid()
      ensures ball == StepBall(old(ball), touch, r1, r2)
    {
      StepBallInBox(ball, touch, r1, r2);
      if touch {
        ball := Point(r1 * BoxSize, r2 * BoxSize);
      } else {
        ball := ball.(x := Clamp(ball.x + (r1 - 0.5) * 4.0));
        ball := ball.(y := Clamp(ball.y + (r2 - 0.5) * 4.0));
      }
    }

    /** updateEmotions: every emotion moves by delta_e times the interaction signal and is
        clamped to [0,1]. */
    method UpdateEmotions(sText: seq<int>, touch: bool)
      requires Valid()
      modifies this`E
      ensures Valid()
      ensures E == ShiftEmotions(old(E), Interaction(SumBits(sText), touch))
    {
      var f := Interaction(SumBits(sText), touch);
      E := ShiftEmotions(E, f);
    }

    /** The rule part of generateResponse: the first matching rule, the triple it appends
        to the memory (concept = first index of the peak activation), and the vocabulary
        target seeded from the keyword slot and the rule's slot. */
    method RecordRule(sText: seq<int>, input: string) returns (rule: Rule, target: seq<real>)
      requires Valid()
      modifies this`G
      ensures Valid()
      ensures rule == SelectRule(Situation(SumBits(sText), |old(G)|, MaxOf(A), E))
      ensures G == old(G) + NewFacts(rule, ArgMax(A), t)
      ensures target == VocabTarget(TextToVocabIndex(input), rule)
    {
      var maxA := MaxOf(A);
      var activeConcept := ArgMax(A);
      target := seq(VocabSize, _ => 0.0);
      var vocabIndex := TextToVocabIndex(input);
      if vocabIndex >= 0 {
        target := target[vocabIndex := 1.0];
      }

      rule := SelectRule(Situation(SumBits(sText), |G|, maxA, E));
      match rule {
        case Positive =>
          G := G + [Fact(ConceptName(activeConcept), "is", "greeting")];
          target := target[0 := 1.0];
        case Reasoning =>
          G := G + [Fact(ConceptName(activeConcept), "has_property", PropName(t))];
          target := target[1 := 1.0];
        case Sad =>
          target := target[2 := 1.0];
        case HappyReasoning =>
          target := target[1 := 1.0];
        case Uncertain =>
          target := target[3 := 1.0];
      }
    }

    /** The pursuit step shared by generateResponse and the tick: the agent takes the
        argmax action of A·Q, touch is tested against the target's old position, and the
        target moves. */
    method Pursue(r1: real, r2: real) returns (action: nat, touch: bool)
      requires Valid() && IsDraw(r1) && IsDraw(r2)
      modifies this`triangle, this`ball
      ensures Valid()
      ensures action < Actions && action == ArgMax(RowProduct(A, Q))
      ensures triangle == StepTriangle(old(triangle), action)
      ensures touch == Touch(triangle, old(ball))
      ensures ball == StepBall(old(ball), touch, r1, r2)
    {
      action := UpdateTriangle();
      touch := Touch(triangle, ball);
      UpdateBall(touch, r1, r2);
    }

    /** The side effects of generateResponse after the rule: move the agent, test touch
        against the target's old position, move the target, then emotion, vocabulary and
        action learning (reward 1 on touch, 0 otherwise). */
    method MoveAndLearn(sText: seq<int>, target: seq<real>, r1: real, r2: real) returns (touch: bool)
      requires Valid() && |target| == VocabSize && IsDraw(r1) && IsDraw(r2)
      modifies this`triangle, this`ball, this`E, M, Q
      ensures Valid()
      ensures var action := ArgMax(old(RowProduct(A, Q)));
        && triangle == StepTriangle(old(triangle), action)
        && touch == Touch(triangle, old(ball))
        && ball == StepBall(old(ball), touch, r1, r2)
        && forall i, j :: 0 <= i < N && 0 <= j < Actions ==>
             Q[i, j] == if j == action
                        then DeltaStep(old(Q[i, j]), A[i],
                               (if touch then 1.0 else 0.0) + Gamma * MaxOf(old(RowProduct(A, Q))))
                        else old(Q[i, j])
      ensures E == ShiftEmotions(old(E), Interaction(SumBits(sText), touch))
      ensures forall i, j :: 0 <= i < N && 0 <= j < VocabSize ==> M[i, j] == DeltaStep(old(M[i, j]), A[i], target[j])
    {
      ghost var scores0 := RowProduct(A, Q);
      var action;
      action, touch := Pursue(r1, r2);
      UpdateEmotions(sText, touch);
      UpdateVocabularyWeights(target);
      assert RowProduct(A, Q) == scores0;
      UpdateActionWeights(action, if touch then 1.0 else 0.0);
    }

    /** The reply of generateResponse: the vocabulary word at the first index of the
        largest entry of A·M, prefixed with "Thinking... " when confidence is below 0.5. */
    method ReplyText(C: real) returns (english: string)
      requires Valid()
      ensures english == Reply(C, ArgMax(RowProduct(A, M)))
    {
      var vocabScores := MatMulRow(A, M);
      var outIndex := ArgMax(vocabScores);
      english := if C < 0.5 then ThinkingPrefix + Vocab(outIndex) else Vocab(outIndex);
    }

    /** generateResponse, with the confidence C and the target's two random draws given.
        The first matching rule fixes the code, the memory append and the vocabulary
        target; then the agent moves, touch is tested, the target moves, emotions,
        vocabulary and action weights learn, and the reply word is the argmax of A·M. */
    method GenerateResponse(sText: seq<int>, input: string, C: real, r1: real, r2: real)
      returns (resp: ResponseEvent)
      requires Valid() && IsDraw(r1) && IsDraw(r2)
      modifies this, M, Q
      ensures Valid()
      ensures A == old(A) && t == old(t) && unchanged(W, V)
      ensures var rule := SelectRule(Situation(SumBits(sText), |old(G)|, MaxOf(A), old(E)));
        && resp.code == Code(rule)
        && G == old(G) + NewFacts(rule, ArgMax(A), t)
        && forall i, j :: 0 <= i < N && 0 <= j < VocabSize ==>
             M[i, j] == DeltaStep(old(M[i, j]), A[i], VocabTarget(TextToVocabIndex(input), rule)[j])
      ensures var scores := old(RowProduct(A, Q));
        var action := ArgMax(scores);
        && triangle == StepTriangle(old(triangle), action)
        && resp.touch == Touch(triangle, old(ball))
        && ball == StepBall(old(ball), resp.touch, r1, r2)
      ensures E == ShiftEmotions(old(E), Interaction(SumBits(sText), resp.touch))
      ensures resp.english == Reply(C, ArgMax(RowProduct(A, M)))
      ensures resp.emotions == E && resp.confidence == C && resp.triangle == triangle && resp.ball == ball
    {
      ghost var scores0 := RowProduct(A, Q);
      var rule, target := RecordRule(sText, input);
      assert RowProduct(A, Q) == scores0;
      var touch := MoveAndLearn(sText, target, r1, r2);
      var english := ReplyText(C);
      resp := ResponseEvent(Code(rule), english, E, C, triangle, ball, touch);
    }

    /** The `userInput` handler: the new activation vector (the sigmoid step) is given as
        nextA; then sensory and associative learning, pruning when the counter before
        its increment is a multiple of the period, and response synthesis. */
    method HandleInput(input: string, vision: seq<int>, sound: seq<int>, nextA: seq<real>,
                       C: real, r1: real, r2: real) returns (resp: ResponseEvent)
      requires Valid() && |vision| == DV && |sound| == DS
      requires |nextA| == N && InUnit(nextA)
      requires IsDraw(r1) && IsDraw(r2)
      modifies this, W, V, M, Q
      ensures Valid()
      ensures A == nextA && t == old(t) + 1
      ensures var S := Features(vision, sound, TextToBinary(input));
        forall i, m :: 0 <= i < N && 0 <= m < D ==>
          W[i, m] == if old(t) % PrunePeriod == 0
                     then Prune(DeltaStep(old(W[i, m]), nextA[i], S[m]), ThetaW)
                     else DeltaStep(old(W[i, m]), nextA[i], S[m])
      ensures forall i, k :: 0 <= i < N && 0 <= k < N ==>
          V[i, k] == if old(t) % PrunePeriod == 0
                     then Prune(HebbStep(old(V[i, k]), old(A)[i], nextA[k]), ThetaV)
                     else HebbStep(old(V[i, k]), old(A)[i], nextA[k])
      ensures var rule := SelectRule(Situation(SumBits(TextToBinary(input)), |old(G)|, MaxOf(nextA), old(E)));
        && resp.code == Code(rule)
        && G == old(G) + NewFacts(rule, ArgMax(nextA), old(t) + 1)
        && forall i, j :: 0 <= i < N && 0 <= j < VocabSize ==>
             M[i, j] == DeltaStep(if old(t) % PrunePeriod == 0 then Prune(old(M[i, j]), ThetaM) else old(M[i, j]),
                                  nextA[i], VocabTarget(TextToVocabIndex(input), rule)[j])
      ensures resp.english == Reply(C, ArgMax(RowProduct(nextA, M)))
      ensures resp.touch == Touch(triangle, old(ball)) && ball == StepBall(old(ball), resp.touch, r1, r2)
      ensures E == ShiftEmotions(old(E), Interaction(SumBits(TextToBinary(input)), resp.touch))
      ensures resp.emotions == E && resp.confidence == C && resp.triangle == triangle && resp.ball == ball
    {
      var aPrev := A;
      var sText := TextToBinary(input);
      var S := Features(vision, sound, sText);
      A := nextA;
      UpdateSensoryWeights(S);
      UpdateAssociationWeights(aPrev);
      var prune := t % PrunePeriod == 0;
      t := t + 1;
      if prune {
        PruneWeights();
      }
      assert forall i, j :: 0 <= i < N && 0 <= j < VocabSize ==>
        M[i, j] == if prune then Prune(old(M[i, j]), ThetaM) else old(M[i, j]);
      resp := GenerateResponse(sText, input, C, r1, r2);
    }

    /** The animation tick body: move the agent, test touch, move the target, update the
        emotions from all-zero text bits, and reinforce the chosen action. */
    method Tick(r1: real, r2: real)
      requires Valid() && IsDraw(r1) && IsDraw(r2)
      modifies this, Q
      ensures Valid()
      ensures A == old(A) && G == old(G) && t == old(t) && unchanged(W, V, M)
      ensures var action := ArgMax(old(RowProduct(A, Q)));
        var touch := Touch(triangle, old(ball));
        && triangle == StepTriangle(old(triangle), action)
        && ball == StepBall(old(ball), touch, r1, r2)
        && E == ShiftEmotions(old(E), Interaction(0, touch))
        && forall i, j :: 0 <= i < N && 0 <= j < Actions ==>
             Q[i, j] == if j == action
                        then DeltaStep(old(Q[i, j]), A[i],
                               (if touch then 1.0 else 0.0) + Gamma * MaxOf(old(RowProduct(A, Q))))
                        else old(Q[i, j])
    {
      ghost var scores0 := RowProduct(A, Q);
      var action, touch := Pursue(r1, r2);
      UpdateEmotions(seq(DT, _ => 0), touch);
      assert RowProduct(A, Q) == scores0;
      UpdateActionWeights(action, if touch then 1.0 else 0.0);
    }
  }

  /** End to end for "hey bro": the greeting keyword selects slot 0, and its length-7 text
      bits sum to 8, so the positive rule fires whatever the memory, activations and
      emotions, and the vocabulary target is exactly slot 0. */
  lemma HeyBroIsAGreeting(facts: nat, maxA: real, e: seq<real>)
    requires |e| == 3
    ensures TextToVocabIndex("hey bro") == 0
    ensures SelectRule(Situation(SumBits(TextToBinary("hey bro")), facts, maxA, e)) == Positive
    ensures forall j :: 0 <= j < VocabSize ==> VocabTarget(0, Positive)[j] == if j == 0 then 1.0 else 0.0
  {
    assert TextToVocabIndex("hey bro") == 0 by {
      assert ToLower("hey bro") == Greeting;
      assert OccursAt(Greeting, Greeting, 0);
    }
    assert SelectRule(Situation(SumBits(TextToBinary("hey bro")), facts, maxA, e)) == Positive by {
      HeyBroTextBits();
      PositiveDominates(8, facts, maxA, e);
    }
  }
}
