# Consecpt engine — a Dafny model

Consecpt is a small "artificial mind". A Node.js server keeps these pieces of state:

- four weight matrices: sensory W (50×18), associative V (50×50), vocabulary M (50×100) and reinforcement Q (50×4);
- an activation vector A;
- three emotions E (happiness, sadness, frustration);
- a relational memory G of (subject, relation, object) triples;
- an input counter t;
- the positions of an agent (the "triangle") and a target (the "ball") in a 200×200 arena.

Each user input runs the following steps in order:

1. Encode the text, vision and sound into a sensory vector.
2. Compute new activations.
3. Learn the sensory and associative weights with a delta rule and a Hebbian rule.
4. Prune small weights every 100 inputs.
5. Build a response. The first matching rule of a fixed priority list gives the binary response code. It may also record a fact, and it sets its slot in a vocabulary target. That target also has a 1 at the keyword slot when the text contains a keyword, so it can hold two 1s ("so sad" gives slots 0 and 2). Then:
   - the agent takes the argmax action of A·Q;
   - touch is tested;
   - the target moves;
   - emotions, vocabulary weights and action weights learn;
   - the reply word is the argmax of A·M.

An animation tick runs the movement, emotion and reinforcement steps alone. The browser client encodes five vision bits, labels the response codes, and refuses blank input.

The model is organised as follows:

- `params.dfy`: the constants.
- `linear.dfy`: row-vector × matrix products, max, indexOf and argmax.
- `learning.dfy`: the element-wise rules and the in-place matrix loops.
- `encoders.dfy`: text bits, keyword lookup and number rendering.
- `spatial.dfy`: arena, moves and touch.
- `emotion.dfy`: the emotion update.
- `response.dfy`: rule dispatch, codes, facts, vocabulary target and reply.
- `client.dfy`: the browser's pure parts.
- `engine.dfy`: the `World` class. Its weight matrices are `array2<real>` updated in place, and its other state lives in fields that the methods reassign.

Numbers are Dafny `real`, an exact idealisation of JS doubles.

Two points about the source text:

- `server.js:103` declares `updateActionWeights = action, reward => …` without parentheses, so the file does not parse. The model follows the evident intent: a two-parameter function, as called at `server.js:200` and `server.js:214`.
- The reinforcement target is bootstrapped from the current A and the Q before the update (`server.js:104`), not from a next-state activation. The model keeps this as written.

Pruning uses a post-increment (`t++ % T === 0`), so it runs when the counter before the input is 0, 100, 200, …, including the very first input.

## Model

| member | source | states |
|---|---|---|
| Linear.MatMulRow | server.js:69-76 | the triple loop of matMul on a one-row left operand yields exactly the row vector a·m (column j is the sum over k of a[k]·m[k,j]) |
| Linear.RowProduct | server.js:145 | the row vector a·m as a value, one entry per column of m; MatMulRow proves that the matMul loop computes it |
| Linear.MaxOf | server.js:104 | Math.max of a non-empty vector is one of its entries and no entry exceeds it |
| Linear.IndexOf | server.js:146 | indexOf gives the first position holding x, and -1 exactly when x is absent |
| Linear.ArgMax | server.js:145-146 | the index is in range, its entry is maximal, and every earlier entry is strictly smaller (ties go to the lowest index) |
| Linear.ArgMaxIsFirstMaximum | server.js:145-146 | any index that is maximal and strictly beats all earlier entries is the argmax: the tie-break pins the result down |
| Linear.ArgMaxOfConstant | server.js:146 | when all scores are equal, the action chosen is 0 |
| Linear.DotOfZeroColumn | server.js:69-76 | a column that is zero contributes zero to the product |
| Linear.ArgMaxOfZeroMatrix | server.js:18 | with the initial all-zero Q every score is 0 and the first action ("up") is chosen |
| Learning.DeltaStep | server.js:88 | one delta-rule step on one weight; DeltaStepTowardTarget gives its properties |
| Learning.HebbStep | server.js:94 | one Hebbian step on one weight; HebbStepMonotone gives its properties |
| Learning.Prune | server.js:111-114 | the threshold test on one weight; PruneExactly gives its properties |
| Learning.DeltaStepTowardTarget | server.js:88 | with 0 ≤ A[i] ≤ 1 a delta step lands between the old weight and its target, shrinks the gap by the factor 1-eta·A[i], leaves a weight at its target unchanged, and makes strict progress when A[i] > 0 |
| Learning.DeltaStepStaysInUnit | server.js:100 | a vocabulary weight in [0,1] pulled toward a 0/1 target stays in [0,1] |
| Learning.HebbStepMonotone | server.js:94 | with activations in [0,1] the Hebbian step never lowers a weight, raises it by at most eta, and leaves it unchanged iff one activation is 0 |
| Learning.PruneExactly | server.js:111-114 | an entry below the threshold becomes 0, any other is kept, what remains is 0 or at least the threshold, and pruning twice equals pruning once |
| Learning.ApplyDeltaRule | server.js:86-88 | every entry becomes its delta step toward the target, gated by its row's activation |
| Learning.ApplyHebbian | server.js:92-94 | every entry V[i,k] grows by eta·pre[i]·post[k] |
| Learning.ApplyDeltaColumn | server.js:105-106 | column `col` takes its delta step toward the one target, gated by each row's activation; every other column is untouched |
| Learning.PruneRow | server.js:110-115 | one row is pruned entry by entry and every other row is untouched |
| Encoders.TextToBinary | server.js:131-133 | ten bits, each 0 or 1 |
| Encoders.TextBitsDependOnLengthOnly | server.js:132 | inputs of equal length get equal bits |
| Encoders.TextBitCharacterised | server.js:132 | bit i is 1 iff 2·((len+i) mod (i+2)) > i; bit 0 is 1 iff the length is odd |
| Encoders.SumBits | server.js:126 | the reduce-sum of a 0/1 vector lies between 0 and its length, and is 0 for the all-zero vector |
| Encoders.HeyBroTextBits | server.js:131-133 | a length-7 input has bits 1,1,0,0,1,1,1,1,1,1, which sum to 8 |
| Encoders.ToLower | server.js:136-138 | lower-casing of the text keeps its length and leaves no upper-case letter; ToLowerIdempotent, VocabIndexIgnoresCase and VocabIndexOfLowered give its further properties |
| Encoders.ToLowerIdempotent | server.js:136 | lower-casing twice is lower-casing once |
| Encoders.Contains | server.js:136-138 | includes(p) holds iff p occurs at some offset |
| Encoders.OccursAtShift | server.js:136-138 | when p is not a prefix of s, p occurs in s iff it occurs in s without its first character |
| Encoders.TextToVocabIndex | server.js:135-140 | 0 iff the lower-cased text contains "hey bro"; 1 iff it lacks that but contains "why is the sky blue"; 2 iff it lacks both but contains "sad"; otherwise -1 |
| Encoders.VocabIndexIgnoresCase | server.js:135-140 | texts equal up to case get the same slot |
| Encoders.VocabIndexOfLowered | server.js:135-140 | the slot of the lower-cased text is the slot of the text |
| Encoders.GreetingTakesPriority | server.js:135-140 | "HEY BRO"→0, "Hey bro, I am sad"→0 (greeting beats "sad"), "so sad"→2, "hello"→-1 |
| Encoders.NatToString | server.js:178 | the rendering of a number inside a template literal is a non-empty string of decimal digits that denotes the number, with no leading '0' except for 0 itself |
| Spatial.Clamp | server.js:148-149 | the result is in [0,200]; a value inside is kept, one below is 0 and one above is 200 |
| Spatial.StepTriangle | server.js:147-149 | the agent's move for an action always lands inside the arena |
| Spatial.StepTriangleMoves | server.js:143-151 | from inside the arena, each action moves along its own axis (up, down, left, right) by 5 units, cut at the wall, and never leaves the arena |
| Spatial.StepBall | server.js:153-160 | a drift always lands inside the arena; a teleport lands at (r1·200, r2·200) |
| Spatial.StepBallInBox | server.js:153-160 | with draws in [0,1) the target always lands inside the arena; a teleport lands below 200 and a drift moves at most 2 units per axis |
| Spatial.BallWalkStaysInBox | server.js:153-160 | for any sequence of steps with draws in [0,1), a target that starts inside the arena stays inside |
| Spatial.Touch | server.js:162-166 | checkTouch: the squared distance is below 400 |
| Spatial.TouchIsNear | server.js:162-166 | touching points are less than 20 apart on each axis |
| Spatial.TouchIffDistanceBelow20 | server.js:162-166 | the squared-distance test agrees with sqrt(dx²+dy²) < 20 |
| Spatial.TouchSymmetric | server.js:163-165 | touch does not depend on which point is the agent |
| Spatial.TouchExamples | server.js:162-166 | agent (100,100): target (105,100) touches, target (130,100) does not |
| Emotion.Interaction | server.js:127 | the interaction signal is -1, 0 or +1 |
| Emotion.InteractionCases | server.js:127 | +1 iff touch or more than 5 text bits; -1 iff no touch and fewer than 2; 0 iff no touch and 2 to 5 |
| Emotion.Clamp01 | server.js:128 | Math.max(0, Math.min(1, e)) lies in [0,1]: a value inside is kept, one below is 0 and one above is 1 |
| Emotion.ShiftEmotions | server.js:128 | the emotion vector keeps its length and stays in [0,1] |
| Emotion.ShiftEmotionsLockstep | server.js:125-129 | all emotions move in the direction of the signal, by exactly 0.05·f when that stays inside [0,1]; equal emotions stay equal; a 0 signal changes nothing |
| Emotion.IdleTickSignal | server.js:213 | a tick's zero text bits give -1 without touch and +1 with touch |
| Response.Rank | server.js:176-193 | each rule sits at its rank in the priority list |
| Response.SelectRule | server.js:176-193 | the chosen rule's guard holds and the guard of every earlier rule fails |
| Response.FirstMatchIsSelected | server.js:176-193 | a rule whose guard holds and all of whose predecessors fail is the one selected: dispatch is first-match |
| Response.PositiveDominates | server.js:176 | more than 5 text bits give the positive rule whatever the memory, activations and emotions |
| Response.ResponseBits | server.js:177-191 | each rule has four response bits |
| Response.JoinBits | server.js:205 | joining keeps one character per bit |
| Response.Code | server.js:205 | the response code, the rule's four bits joined into a string; CodesAreTheProtocol gives its five values |
| Response.CodesAreTheProtocol | server.js:177-191 | the code is one of "1010", "1100", "0011", "1111", "0000", and different rules have different codes |
| Response.ConceptName | server.js:178 | the subject `concept<k>` of a recorded fact; NatToString gives the rendering of k and NewFacts the triple it sits in |
| Response.PropName | server.js:182 | the object `prop<t>` of a recorded property fact; NatToString gives the rendering of t and NewFacts the triple it sits in |
| Response.NewFacts | server.js:178-182 | the memory grows by exactly one triple under the first two rules (concept is greeting; concept has_property prop) and by none otherwise |
| Response.TargetSlot | server.js:179-192 | the slot set by the rule is one of the four hand-authored slots |
| Response.VocabTarget | server.js:172-192 | the target is a 0/1 vector of 100 entries with 1 at the rule's slot and at the keyword slot (if any) and 0 elsewhere |
| Response.Vocab | server.js:27-33 | slots 0-3 are "Hello!", "Blue due to scattering", "I feel you" and "Thinking..."; from slot 4 on the word is "Token" followed by decimal digits, without a leading '0', that denote the slot |
| Response.VocabInjective | server.js:27-33 | different slots have different words |
| Response.Reply | server.js:203 | the reply text; ReplyPrefixedIffUnsure gives its properties |
| Response.ReplyPrefixedIffUnsure | server.js:201-203 | the reply starts with "Thinking... " iff confidence is below 0.5, and it ends with the vocabulary word |
| Client.VisionFeatures | client.js:70-80 | five vision bits, each 0 or 1 |
| Client.VisionDirectionsExclusive | client.js:74-77 | "right" and "left" are never both set and are both clear iff dx = 0; likewise "below" and "above" with dy |
| Client.VisionTouchBitIsServerTouch | client.js:78 | the fifth bit is set iff the server's touch test holds for the same positions |
| Client.SoundFeatures | client.js:82-84 | three sound bits, each 0 or 1 |
| Client.ResponseLabel | client.js:53-56 | "1010"→Positive, "1100"→Reasoning, "0011"→Sad, "1111"→Happy Reasoning, and every other string→Uncertain |
| Client.LabelOfServerCode | client.js:53-56 | each server code is labelled with its rule's name; the code "0000" reads "Uncertain" |
| Client.TrimStart | client.js:87 | trimming the front drops exactly a leading run of white space |
| Client.TrimEnd | client.js:87 | trimming the back drops exactly a trailing run of white space |
| Client.Trim | client.js:87 | trim(): the result neither starts nor ends with white space; TrimStart and TrimEnd give what each end drops, and SendInputOnlyNonBlank what is sent |
| Client.SendInput | client.js:86-95 | nothing is sent iff the trimmed text is empty; otherwise the trimmed text goes out with the vision and sound bits of the given positions and draws |
| Client.SendInputOnlyNonBlank | client.js:86-95 | nothing is sent iff the text is all white space; what is sent is non-empty, trimmed, with 5 vision and 3 sound bits |
| Engine.Features | server.js:229 | the sensory vector is the vision bits, then the sound bits, then the text bits, each entry equal to its bit |
| Engine.World.constructor | server.js:14-24 | W and V are uniform in [-0.01,0.01) from the draws; M, Q and A are zero; E is 0.5 each; G is empty; t is 0; agent at (100,100), target at (150,150) |
| Engine.World.UpdateSensoryWeights | server.js:85-89 | every W[i,m] takes one delta step toward S[m], gated by A[i] |
| Engine.World.UpdateAssociationWeights | server.js:91-95 | every V[i,k] takes one Hebbian step with A_prev[i] and A[k] |
| Engine.World.UpdateVocabularyWeights | server.js:97-101 | every M[i,j] takes one delta step toward T[j], gated by A[i] |
| Engine.World.UpdateActionWeights | server.js:103-107 | only column `action` of Q changes; each of its entries takes a delta step toward reward + 0.9·max(A·Q) computed from the Q before the update |
| Engine.World.PruneWeights | server.js:109-116 | every entry of W, V, M, Q is pruned at its threshold; afterwards all four are pruned matrices, and an already pruned matrix is left unchanged |
| Engine.World.Pursue | server.js:195-197 | the agent takes the argmax action of A·Q, touch is tested against the target's old position, and the target takes its step |
| Engine.World.UpdateTriangle | server.js:144-151 | the action is the argmax of A·Q (in 0..3, first maximum) and the agent takes its clamped step, staying in the arena |
| Engine.World.UpdateBall | server.js:153-160 | the target teleports on touch and drifts otherwise, staying in the arena |
| Engine.World.UpdateEmotions | server.js:125-129 | the emotions become the clamped shift by the interaction signal |
| Engine.World.RecordRule | server.js:169-193 | the rule is the first match on the text-bit sum, memory size, peak activation and emotions; the memory gains that rule's triple for the first index of the peak activation; the vocabulary target has a 1 at the keyword slot (if any) and at the rule's slot, and 0 elsewhere |
| Engine.World.MoveAndLearn | server.js:195-200 | the agent moves by the argmax action, touch is tested against the target's old position, the target moves, then emotions, vocabulary weights and that action's Q column learn (reward 1 on touch) |
| Engine.World.ReplyText | server.js:201-203 | the reply is the vocabulary word at the argmax of A·M, prefixed iff confidence < 0.5 |
| Engine.World.GenerateResponse | server.js:168-206 | code, memory growth and vocabulary learning follow the first matching rule; agent, touch, target and emotions move as described; the reply is computed from the learned M; A, t, W and V are unchanged |
| Engine.World.HandleInput | server.js:227-234 | A becomes the new activations and t grows by 1; W and V take their learning step and are pruned iff the counter before the input is a multiple of 100; the response code and the memory growth follow the first matching rule on the input's text bits, with `prop<t>` naming the incremented counter; M is pruned on the same schedule and then learns toward that rule's vocabulary target; the reply is the word at the argmax of the new activations times the learned M |
| Engine.World.Tick | server.js:210-214 | the agent moves by the argmax action, the target moves, the emotions shift by the zero-text signal, only the chosen Q column learns, and A, G, t, W, V and M are unchanged |
| Engine.HeyBroIsAGreeting | server.js:168-193 | "hey bro" selects keyword slot 0 and, having 8 text bits, the positive rule whatever the state, so its vocabulary target is exactly slot 0 |

## Left out

- Express, Socket.IO, HTTP serving and event emission: transport and I/O. `HandleInput` and `GenerateResponse` return the `response` payload instead of emitting it.
- `saveState` and `loadState`: file I/O and JSON parsing. The model starts from the initial state.
- The `setInterval` timer and its interleaving with input events: concurrency. Only the tick body is modelled, as `Tick`.
- `sigmoid` and `updateActivations`: floating-point exponentials. `HandleInput` takes the new activation vector as a parameter with entries in [0,1]. The interval is closed because a double sigmoid can round to 0 or 1.
- `updateActivations` as written (`server.js:80-82`): `matMul(W, [S])` multiplies by a one-row matrix, so its row 0 is the 18 products W[0][0]·S[m], not W·S. `matMul(V, [A])` likewise yields the products V[0][0]·A_prev[i], not V·A_prev. For i from 18 to 49, `sensory[i]` is `undefined`, and the first input makes A[18..49] NaN. `updateTriangle` (`server.js:145-147`) then finds every action score NaN. `indexOf` gives -1, and destructuring `moves[-1]` throws a TypeError in `generateResponse` and in every later tick. The model assumes the intended product W·S: `HandleInput` requires its activation vector to lie in [0,1], and `HandleInput` and `Tick` promise nothing about the code as written.
- `computeConfidence`: logarithms and entropy. The confidence is a parameter.
- `Math.sqrt` in the touch tests: the model compares squared distances, and `Spatial.TouchIffDistanceBelow20` relates the two.
- `Math.random`: each draw is a parameter in [0,1). This covers the initial W and V (functions of the indices), the two target draws, and the three sound draws.
- Floating-point rounding, NaN and infinities: all arithmetic is over exact reals.
- `toLowerCase` and `trim` are modelled on the characters listed. Lower-casing maps only 'A'..'Z'.
- String length counts characters, whereas JS counts UTF-16 code units. The two differ for characters outside the basic plane.
- Client rendering: canvas drawing, DOM updates and socket handlers. The `alert` for blank input is the `None` result of `Client.SendInput`.
- `P_triangle` and `P_ball` are two-element arrays written coordinate by coordinate. In the model they are `Point` values that the methods reassign. The response object built at `server.js:205` holds the same two arrays. A tick that runs during `await saveState()` (`server.js:204`) would move them before the response is sent, and the model does not capture that aliasing or the interleaving.
- `sendInput` (`client.js:92`) reads `P_triangle` and `P_ball`, but `client.js` declares no such globals. They appear only as parameters, at `client.js:30`, `52`, `65` and `70`. `Client.SendInput` takes the positions as parameters. Unless the page defines those globals, the script as written throws a ReferenceError on every non-blank input and sends nothing. The model does not capture that.
- Engine.World.GenerateResponse: does not restate the update of the chosen Q column. `Engine.World.MoveAndLearn` states that update, and `GenerateResponse` calls it with the Q it was given.
- Engine.World.HandleInput: leaves two effects unstated: the agent's new position, and Q, both its scheduled pruning and the learning of the chosen column. Both depend on the argmax of A·Q over the pruned Q. For these it relies on `PruneWeights`, `GenerateResponse` and `MoveAndLearn`.
