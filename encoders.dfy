/** Text encoders of the engine: the length-derived text feature bits, the keyword
    lookup into the hand-authored vocabulary slots, and decimal rendering of numbers. */
module Encoders {
  import opened Params

  /** textToBinary: DT bits, bit i set iff (len + i) mod (i + 2) exceeds i / 2. */
  function TextToBinary(input: string): (bits: seq<int>)
    ensures |bits| == DT
    ensures forall i :: 0 <= i < DT ==> bits[i] == 0 || bits[i] == 1
  {
    seq(DT, i requires 0 <= i < DT => if ((|input| + i) % (i + 2)) as real > i as real / 2.0 then 1 else 0)
  }

  /** The text bits depend only on the length of the input. */
  lemma TextBitsDependOnLengthOnly(s: string, u: string)
    requires |s| == |u|
    ensures TextToBinary(s) == TextToBinary(u)
  {
  }

  /** Bit i is set iff 2 * ((len + i) mod (i + 2)) > i; in particular bit 0 is set iff the
      length is odd. */
  lemma TextBitCharacterised(input: string, i: nat)
    requires i < DT
    ensures TextToBinary(input)[i] == 1 <==> 2 * ((|input| + i) % (i + 2)) > i
    ensures TextToBinary(input)[0] == 1 <==> |input| % 2 == 1
  {
  }

  /** Sum of a bit vector (the `reduce((sum, s) => sum + s, 0)` of the engine). */
  function SumBits(s: seq<int>): (r: int)
    ensures (forall i :: 0 <= i < |s| ==> s[i] == 0 || s[i] == 1) ==> 0 <= r <= |s|
    ensures (forall i :: 0 <= i < |s| ==> s[i] == 0) ==> r == 0
  {
    if |s| == 0 then 0 else s[0] + SumBits(s[1..])
  }

  /** The text bits of a length-7 input such as "hey bro" are 1,1,0,0,1,1,1,1,1,1: they sum
      to 8, above the "positive" threshold of 5. */
  lemma HeyBroTextBits()
    ensures TextToBinary("hey bro") == [1, 1, 0, 0, 1, 1, 1, 1, 1, 1]
    ensures SumBits(TextToBinary("hey bro")) == 8
  {
    var b := TextToBinary("hey bro");
    var expected := [1, 1, 0, 0, 1, 1, 1, 1, 1, 1];
    assert b[0] == expected[0] by { assert (7 + 0) % (0 + 2) == 1; }
    assert b[1] == expected[1] by { assert (7 + 1) % (1 + 2) == 2; }
    assert b[2] == expected[2] by { assert (7 + 2) % (2 + 2) == 1; }
    assert b[3] == expected[3] by { assert (7 + 3) % (3 + 2) == 0; }
    assert b[4] == expected[4] by { assert (7 + 4) % (4 + 2) == 5; }
    assert b[5] == expected[5] by { assert (7 + 5) % (5 + 2) == 5; }
    assert b[6] == expected[6] by { assert (7 + 6) % (6 + 2) == 5; }
    assert b[7] == expected[7] by { assert (7 + 7) % (7 + 2) == 5; }
    assert b[8] == expected[8] by { assert (7 + 8) % (8 + 2) == 5; }
    assert b[9] == expected[9] by { assert (7 + 9) % (9 + 2) == 5; }
    assert b == expected;
  }

  /** ASCII lower-casing (toLowerCase restricted to 'A'..'Z'). */
  function LowerChar(c: char): char {
    if 'A' <= c <= 'Z' then (c as int + 32) as char else c
  }

  /** toLowerCase: the same length, and no upper-case ASCII letter is left. */
  function ToLower(s: string): (r: string)
    ensures |r| == |s|
    ensures forall i :: 0 <= i < |r| ==> !('A' <= r[i] <= 'Z')
  {
    seq(|s|, i requires 0 <= i < |s| => LowerChar(s[i]))
  }

  /** Lower-casing is idempotent. */
  lemma ToLowerIdempotent(s: string)
    ensures ToLower(ToLower(s)) == ToLower(s)
  {
  }

  /** p occurs in s starting at offset i. */
  predicate OccursAt(s: string, p: string, i: int) {
    0 <= i <= |s| - |p| && s[i..i + |p|] == p
  }

  /** s.includes(p): p occurs in s at some offset. */
  function Contains(s: string, p: string): (r: bool)
    ensures r <==> exists i :: OccursAt(s, p, i)
  {
    if |s| < |p| then
      false
    else if s[..|p|] == p then
      assert OccursAt(s, p, 0);
      true
    else
      OccursAtShift(s, p);
      Contains(s[1..], p)
  }

  /** When p is not a prefix of s, its occurrences in s are those in s[1..], one place later. */
  lemma OccursAtShift(s: string, p: string)
    requires |p| <= |s| && s[..|p|] != p
    ensures (exists i :: OccursAt(s, p, i)) <==> exists i :: OccursAt(s[1..], p, i)
  {
    if i :| OccursAt(s, p, i) {
      assert i != 0;
      assert s[1..][i - 1..i - 1 + |p|] == s[i..i + |p|];
      assert OccursAt(s[1..], p, i - 1);
    }
    if i :| OccursAt(s[1..], p, i) {
      assert s[i + 1..i + 1 + |p|] == s[1..][i..i + |p|];
      assert OccursAt(s, p, i + 1);
    }
  }

  const Greeting: string := "hey bro"
  const SkyQuestion: string := "why is the sky blue"
  const SadWord: string := "sad"

  /** textToVocabIndex: case-insensitive keyword lookup in priority order. */
  function TextToVocabIndex(input: string): (k: int)
    ensures -1 <= k <= 2
    ensures k == 0 <==> Contains(ToLower(input), Greeting)
    ensures k == 1 <==> !Contains(ToLower(input), Greeting) && Contains(ToLower(input), SkyQuestion)
    ensures k == 2 <==> !Contains(ToLower(input), Greeting) && !Contains(ToLower(input), SkyQuestion)
                        && Contains(ToLower(input), SadWord)
  {
    if Contains(ToLower(input), Greeting) then 0
    else if Contains(ToLower(input), SkyQuestion) then 1
    else if Contains(ToLower(input), SadWord) then 2
    else -1
  }

  /** The lookup ignores case. */
  lemma VocabIndexIgnoresCase(s: string, u: string)
    requires ToLower(s) == ToLower(u)
    ensures TextToVocabIndex(s) == TextToVocabIndex(u)
  {
  }

  lemma VocabIndexOfLowered(s: string)
    ensures TextToVocabIndex(ToLower(s)) == TextToVocabIndex(s)
  {
    ToLowerIdempotent(s);
  }

  /** The greeting wins over a later keyword, whatever the case. */
  lemma GreetingTakesPriority()
    ensures TextToVocabIndex("HEY BRO") == 0
    ensures TextToVocabIndex("Hey bro, I am sad") == 0
    ensures TextToVocabIndex("so sad") == 2
    ensures TextToVocabIndex("hello") == -1
  {
    assert ToLower("HEY BRO") == Greeting;
    assert OccursAt(ToLower("HEY BRO"), Greeting, 0);
    assert OccursAt(ToLower("Hey bro, I am sad"), Greeting, 0);
    assert OccursAt(ToLower("so sad"), SadWord, 3);
    var h := ToLower("hello");
    assert h == "hello";
    forall i ensures !OccursAt(h, SadWord, i) {
      if 0 <= i <= |h| - |SadWord| {
        assert h[i..i + |SadWord|][0] == h[i] != 's';
      }
    }
  }

  function DigitChar(d: nat): (c: char)
    requires d < 10
    ensures '0' <= c <= '9'
  {
    ('0' as int + d) as char
  }

  /** The number a string of decimal digits denotes, read left to right. */
  function DigitsValue(s: string): nat
    requires forall i :: 0 <= i < |s| ==> '0' <= s[i] <= '9'
  {
    if |s| == 0 then 0 else DigitsValue(s[..|s| - 1]) * 10 + (s[|s| - 1] as int - '0' as int)
  }

  /** Decimal rendering of a natural number, as a template literal prints it: the digits
      denote n, and only 0 itself starts with '0'. */
  function NatToString(n: nat): (s: string)
    ensures |s| >= 1
    ensures forall i :: 0 <= i < |s| ==> '0' <= s[i] <= '9'
    ensures DigitsValue(s) == n
    ensures n > 0 ==> s[0] != '0'
    ensures n == 0 ==> s == "0"
  {
    if n < 10 then [DigitChar(n)]
    else
      var front := NatToString(n / 10);
      var s := front + [DigitChar(n % 10)];
      assert s[..|s| - 1] == front;
      s
  }
}
