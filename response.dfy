/** Response synthesis: the ordered rule table, the binary response codes, the facts the
    rules record, the 0/1 vocabulary target and the reply text. */
module Response {
  import opened Params
  import opened Encoders

  datatype Rule = Positive | Reasoning | Sad | HappyReasoning | Uncertain

  /** What the rules look at: the text-bit sum, the number of stored facts, the peak
      activation and the emotion vector (happiness, sadness, frustration). */
  datatype Situation = Situation(textSum: int, facts: nat, maxA: real, e: seq<real>)

  /** The guard of each rule, read on its own. */
  predicate Guard(rule: Rule, s: Situation)
    requires |s.e| == 3
  {
    match rule
    case Positive => s.textSum as real > 0.5 * DT as real
    case Reasoning => s.facts > 0 && s.maxA > 0.7
    case Sad => s.e[1] > 0.6
    case HappyReasoning => s.e[0] > 0.6 && s.facts > 0
    case Uncertain => true
  }

  /** The order in which the rules are tried. */
  const Priority: seq<Rule> := [Positive, Reasoning, Sad, HappyReasoning, Uncertain]

  function Rank(rule: Rule): (k: nat)
    ensures k < |Priority| && Priority[k] == rule
  {
    match rule
    case Positive => 0
    case Reasoning => 1
    case Sad => 2
    case HappyReasoning => 3
    case Uncertain => 4
  }

  /** generateResponse's if / else-if chain. It picks the first rule of Priority whose
      guard holds: the chosen guard holds and every earlier guard fails. */
  function SelectRule(s: Situation): (rule: Rule)
    requires |s.e| == 3
    ensures Guard(rule, s)
    ensures forall k :: 0 <= k < Rank(rule) ==> !Guard(Priority[k], s)
  {
    if s.textSum as real > 0.5 * DT as real then Positive
    else if s.facts > 0 && s.maxA > 0.7 then Reasoning
    else if s.e[1] > 0.6 then Sad
    else if s.e[0] > 0.6 && s.facts > 0 then HappyReasoning
    else Uncertain
  }

  /** First match is unique: a rule whose guard holds and all of whose predecessors fail
      is the one selected. */
  lemma FirstMatchIsSelected(s: Situation, rule: Rule)
    requires |s.e| == 3
    requires Guard(rule, s)
    requires forall k :: 0 <= k < Rank(rule) ==> !Guard(Priority[k], s)
    ensures SelectRule(s) == rule
  {
    var chosen := SelectRule(s);
    // Each rule's guard sits at its rank in the table, so neither can precede the other.
    assert Guard(Priority[Rank(rule)], s);
    assert Guard(Priority[Rank(chosen)], s);
  }

  /** More than 5 text bits always yield the positive rule, whatever the emotions, the
      activations and the memory. */
  lemma PositiveDominates(textSum: int, facts: nat, maxA: real, e: seq<real>)
    requires |e| == 3 && textSum > 5
    ensures SelectRule(Situation(textSum, facts, maxA, e)) == Positive
  {
  }

  /** The four response bits of each rule. */
  function ResponseBits(rule: Rule): (bits: seq<int>)
    ensures |bits| == 4
  {
    match rule
    case Positive => [1, 0, 1, 0]
    case Reasoning => [1, 1, 0, 0]
    case Sad => [0, 0, 1, 1]
    case HappyReasoning => [1, 1, 1, 1]
    case Uncertain => [0, 0, 0, 0]
  }

  /** responseBits.join(''), for bits that are 0 or 1. */
  function JoinBits(bits: seq<int>): (s: string)
    ensures |s| == |bits|
  {
    seq(|bits|, i requires 0 <= i < |bits| => if bits[i] == 1 then '1' else '0')
  }

  function Code(rule: Rule): string {
    JoinBits(ResponseBits(rule))
  }

  /** Every rule has its own code, and the codes are exactly the five literals of the
      response protocol. */
  lemma CodesAreTheProtocol(rule: Rule, other: Rule)
    ensures Code(rule) in {"1010", "1100", "0011", "1111", "0000"}
    ensures Code(rule) == Code(other) ==> rule == other
  {
    assert Code(Positive) == "1010";
    assert Code(Reasoning) == "1100";
    assert Code(Sad) == "0011";
    assert Code(HappyReasoning) == "1111";
    assert Code(Uncertain) == "0000";
  }

  /** A relational-memory triple. */
  datatype Fact = Fact(subject: string, relation: string, object: string)

  function ConceptName(k: nat): string { "concept" + NatToString(k) }
  function PropName(t: nat): string { "prop" + NatToString(t) }

  /** What a rule appends to the memory: one triple for the first two rules, none after. */
  function NewFacts(rule: Rule, concept: nat, t: nat): (facts: seq<Fact>)
    ensures |facts| <= 1
    ensures |facts| == 1 <==> rule == Positive || rule == Reasoning
    ensures rule == Positive ==> facts == [Fact(ConceptName(concept), "is", "greeting")]
    ensures rule == Reasoning ==> facts == [Fact(ConceptName(concept), "has_property", PropName(t))]
  {
    match rule
    case Positive => [Fact(ConceptName(concept), "is", "greeting")]
    case Reasoning => [Fact(ConceptName(concept), "has_property", PropName(t))]
    case _ => []
  }

  /** The vocabulary slot each rule sets in the target. */
  function TargetSlot(rule: Rule): (slot: nat)
    ensures slot < 4
  {
    match rule
    case Positive => 0
    case Reasoning => 1
    case Sad => 2
    case HappyReasoning => 1
    case Uncertain => 3
  }

  /** The vocabulary target T: zero except for the keyword slot (when a keyword matched)
      and the slot of the chosen rule. */
  function VocabTarget(vocabIndex: int, rule: Rule): (target: seq<real>)
    requires vocabIndex < VocabSize
    ensures |target| == VocabSize
    ensures forall j :: 0 <= j < VocabSize ==> target[j] == 0.0 || target[j] == 1.0
    ensures target[TargetSlot(rule)] == 1.0
    ensures 0 <= vocabIndex ==> target[vocabIndex] == 1.0
    ensures forall j :: 0 <= j < VocabSize && j != TargetSlot(rule) && j != vocabIndex ==> target[j] == 0.0
  {
    var zero := seq(VocabSize, _ => 0.0);
    var seeded := if vocabIndex >= 0 then zero[vocabIndex := 1.0] else zero;
    seeded[TargetSlot(rule) := 1.0]
  }

  /** The fixed vocabulary: four hand-authored slots, then placeholders "Token<i>". */
  function Vocab(i: nat): (word: string)
    requires i < VocabSize
    ensures i == 0 ==> word == "Hello!"
    ensures i == 1 ==> word == "Blue due to scattering"
    ensures i == 2 ==> word == "I feel you"
    ensures i == 3 ==> word == "Thinking..."
    ensures i >= 4 ==> (|word| > 5 && word[..5] == "Token" && word[5] != '0'
                        && (forall c :: 5 <= c < |word| ==> '0' <= word[c] <= '9') && DigitsValue(word[5..]) == i)
  {
    if i == 0 then "Hello!"
    else if i == 1 then "Blue due to scattering"
    else if i == 2 then "I feel you"
    else if i == 3 then "Thinking..."
    else
      var word := "Token" + NatToString(i);
      assert word[5..] == NatToString(i);
      word
  }

  /** Every slot has its own word: the reply names the slot it came from. */
  lemma VocabInjective(i: nat, j: nat)
    requires i < VocabSize && j < VocabSize
    ensures Vocab(i) == Vocab(j) ==> i == j
  {
    if Vocab(i) == Vocab(j) && i >= 4 && j >= 4 {
      assert Vocab(i)[5..] == Vocab(j)[5..];
    } else if i >= 4 {
      assert Vocab(i)[1] == "Token"[1];
    } else if j >= 4 {
      assert Vocab(j)[1] == "Token"[1];
    }
  }

  const ThinkingPrefix: string := "Thinking... "

  /** The reply text: the vocabulary word, prefixed when confidence is below 0.5. */
  function Reply(confidence: real, k: nat): (reply: string)
    requires k < VocabSize
  {
    if confidence < 0.5 then ThinkingPrefix + Vocab(k) else Vocab(k)
  }

  /** No vocabulary word itself starts with the prefix (slot 3, "Thinking...", lacks its
      trailing space), so the prefix appears iff confidence is below 0.5. */
  lemma ReplyPrefixedIffUnsure(confidence: real, k: nat)
    requires k < VocabSize
    ensures ThinkingPrefix <= Reply(confidence, k) <==> confidence < 0.5
    ensures |Reply(confidence, k)| == |Vocab(k)| + (if confidence < 0.5 then |ThinkingPrefix| else 0)
    ensures Reply(confidence, k)[|Reply(confidence, k)| - |Vocab(k)|..] == Vocab(k)
  {
    var w := Vocab(k);
    if k < 3 {
      assert w[0] != ThinkingPrefix[0];
    } else if k == 3 {
      assert |w| < |ThinkingPrefix|;
    } else {
      assert w[1] != ThinkingPrefix[1];
    }
    assert !(ThinkingPrefix <= w);
  }
}
