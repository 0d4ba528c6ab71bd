/** The browser client's pure parts: the vision feature encoder, the response-code label
    table, and the empty-input check before an input event is sent. */
module Client {
  import opened Params
  import opened Spatial
  import opened Response

  datatype Option<T> = None | Some(value: T)

  /** getVisionFeatures: target right, left, below, above, and within touching distance
      (the square root compared as its square). */
  function VisionFeatures(triangle: Point, ball: Point): (bits: seq<int>)
    ensures |bits| == DV
    ensures forall i :: 0 <= i < |bits| ==> bits[i] == 0 || bits[i] == 1
  {
    var dx := ball.x - triangle.x;
    var dy := ball.y - triangle.y;
    [ if dx > 0.0 then 1 else 0,
      if dx < 0.0 then 1 else 0,
      if dy > 0.0 then 1 else 0,
      if dy < 0.0 then 1 else 0,
      if dx * dx + dy * dy < 400.0 then 1 else 0 ]
  }

  /** "Right" and "left" are never both set, both are clear iff the target is level on x,
      and likewise "below" and "above" on y. */
  lemma VisionDirectionsExclusive(triangle: Point, ball: Point)
    ensures var b := VisionFeatures(triangle, ball); !(b[0] == 1 && b[1] == 1) && !(b[2] == 1 && b[3] == 1)
    ensures var b := VisionFeatures(triangle, ball); (b[0] == 0 && b[1] == 0) <==> ball.x == triangle.x
    ensures var b := VisionFeatures(triangle, ball); (b[2] == 0 && b[3] == 0) <==> ball.y == triangle.y
    ensures var b := VisionFeatures(triangle, ball); b[0] == 1 <==> ball.x > triangle.x
    ensures var b := VisionFeatures(triangle, ball); b[3] == 1 <==> ball.y < triangle.y
  {
  }

  /** The fifth bit is the server's touch test: same positions, same 20-unit threshold. */
  lemma VisionTouchBitIsServerTouch(triangle: Point, ball: Point)
    ensures VisionFeatures(triangle, ball)[4] == 1 <==> Touch(triangle, ball)
  {
  }

  /** getSoundFeatures: three random bits, each set when its draw exceeds 0.5. */
  function SoundFeatures(r1: real, r2: real, r3: real): (bits: seq<int>)
    ensures |bits| == DS
    ensures forall i :: 0 <= i < |bits| ==> bits[i] == 0 || bits[i] == 1
  {
    [if r1 > 0.5 then 1 else 0, if r2 > 0.5 then 1 else 0, if r3 > 0.5 then 1 else 0]
  }

  /** The label shown for a response code; anything unrecognised reads "Uncertain". */
  function ResponseLabel(code: string): (name: string)
    ensures code == "1010" ==> name == "Positive"
    ensures code == "1100" ==> name == "Reasoning"
    ensures code == "0011" ==> name == "Sad"
    ensures code == "1111" ==> name == "Happy Reasoning"
    ensures code !in {"1010", "1100", "0011", "1111"} ==> name == "Uncertain"
  {
    if code == "1010" then "Positive"
    else if code == "1100" then "Reasoning"
    else if code == "0011" then "Sad"
    else if code == "1111" then "Happy Reasoning"
    else "Uncertain"
  }

  /** The client labels every server code with the name of the rule that produced it. */
  lemma LabelOfServerCode(rule: Rule)
    ensures rule == Positive ==> ResponseLabel(Code(rule)) == "Positive"
    ensures rule == Reasoning ==> ResponseLabel(Code(rule)) == "Reasoning"
    ensures rule == Sad ==> ResponseLabel(Code(rule)) == "Sad"
    ensures rule == HappyReasoning ==> ResponseLabel(Code(rule)) == "Happy Reasoning"
    ensures rule == Uncertain ==> ResponseLabel(Code(rule)) == "Uncertain"
  {
    CodesAreTheProtocol(rule, rule);
    match rule
    case Positive => assert Code(rule) == "1010";
    case Reasoning => assert Code(rule) == "1100";
    case Sad => assert Code(rule) == "0011";
    case HappyReasoning => assert Code(rule) == "1111";
    case Uncertain => assert Code(rule) == "0000";
  }

  /** The characters String.prototype.trim removes: white space and line terminators. */
  predicate IsSpace(c: char) {
    c == ' ' || c == '\t' || c == '\n' || c == '\r' || c == '\U{000B}' || c == '\U{000C}'
    || c == '\U{00A0}' || c == '\U{FEFF}' || c == '\U{1680}' || ('\U{2000}' <= c <= '\U{200A}')
    || c == '\U{2028}' || c == '\U{2029}' || c == '\U{202F}' || c == '\U{205F}' || c == '\U{3000}'
  }

  /** Drops leading white space: what remains is a suffix that does not start with it. */
  function TrimStart(s: string): (r: string)
    ensures |r| <= |s| && r == s[|s| - |r|..]
    ensures forall i :: 0 <= i < |s| - |r| ==> IsSpace(s[i])
    ensures |r| > 0 ==> !IsSpace(r[0])
  {
    if |s| > 0 && IsSpace(s[0]) then TrimStart(s[1..]) else s
  }

  /** Drops trailing white space: what remains is a prefix that does not end with it. */
  function TrimEnd(s: string): (r: string)
    ensures |r| <= |s| && r == s[..|r|]
    ensures forall i :: |r| <= i < |s| ==> IsSpace(s[i])
    ensures |r| > 0 ==> !IsSpace(r[|r| - 1])
  {
    if |s| > 0 && IsSpace(s[|s| - 1]) then TrimEnd(s[..|s| - 1]) else s
  }

  /** String.prototype.trim: white space is dropped from both ends and from nowhere else. */
  function Trim(s: string): (r: string)
    ensures |r| > 0 ==> !IsSpace(r[0]) && !IsSpace(r[|r| - 1])
  {
    TrimEnd(TrimStart(s))
  }

  /** The payload of a `userInput` event. */
  datatype InputEvent = InputEvent(input: string, vision: seq<int>, sound: seq<int>)

  /** sendInput: an input that is empty after trimming raises an alert and sends nothing;
      otherwise the trimmed text goes out with the vision and sound bits. */
  function SendInput(raw: string, triangle: Point, ball: Point, r1: real, r2: real, r3: real): (sent: Option<InputEvent>)
    ensures sent.None? <==> Trim(raw) == ""
    ensures sent.Some? ==> (sent.value.input == Trim(raw) && sent.value.vision == VisionFeatures(triangle, ball)
                            && sent.value.sound == SoundFeatures(r1, r2, r3))
  {
    var input := Trim(raw);
    if input == "" then None
    else Some(InputEvent(input, VisionFeatures(triangle, ball), SoundFeatures(r1, r2, r3)))
  }

  /** Nothing is sent iff the raw text is all white space; what is sent is non-empty,
      trimmed at both ends, and carries 5 vision and 3 sound bits. */
  lemma SendInputOnlyNonBlank(raw: string, triangle: Point, ball: Point, r1: real, r2: real, r3: real)
    ensures SendInput(raw, triangle, ball, r1, r2, r3).None? <==> forall i :: 0 <= i < |raw| ==> IsSpace(raw[i])
    ensures match SendInput(raw, triangle, ball, r1, r2, r3)
      case None => true
      case Some(ev) => ev.input != "" && !IsSpace(ev.input[0]) && !IsSpace(ev.input[|ev.input| - 1])
                       && |ev.vision| == DV && |ev.sound| == DS
  {
  }
}
