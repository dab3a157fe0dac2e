/** The Python and TypeScript readers of folded stacks, and stacks as lists of frames. */
module FlameText {
  import opened Wrappers
  import opened FoldedText
  import opened Separated

  /** One accepted line: the frames, outermost first, and a positive count. */
  datatype Sample = Sample(frames: seq<string>, count: nat)

  // ----- Frames -----

  /** The frames of a stack, outermost first; at least one. */
  function Frames(stack: string): (r: seq<string>)
    ensures r != [] && forall i :: 0 <= i < |r| ==> Without(r[i], ';')
  {
    Split(stack, ';')
  }

  function Stack(frames: seq<string>): string {
    Join(frames, ';')
  }

  /** Splitting a stack loses nothing, so stacks with the same frames are the same stack. */
  lemma StackOfFrames(stack: string)
    ensures Stack(Frames(stack)) == stack
  {
    JoinOfSplit(stack, ';');
  }

  lemma FramesInjective(s: string, t: string)
    ensures Frames(s) == Frames(t) <==> s == t
  {
    StackOfFrames(s);
    StackOfFrames(t);
  }

  /** Joining loses nothing either, as no frame holds a semicolon. */
  lemma FramesOfStack(frames: seq<string>)
    requires frames != [] && forall i :: 0 <= i < |frames| ==> Without(frames[i], ';')
    ensures Frames(Stack(frames)) == frames
  {
    SplitOfJoin(frames, ';');
  }

  /** Python's `s[:n]`: a negative `n` counts from the end. */
  function Slice<T>(s: seq<T>, n: int): (r: seq<T>)
    ensures r <= s
  {
    if n >= |s| then s
    else if n >= 0 then s[..n]
    else if |s| + n > 0 then s[..|s| + n]
    else []
  }

  // ----- Python -----

  predicate PySpace(c: char) {
    var n := c as int;
    || 9 <= n <= 13 || 28 <= n <= 32 || n == 0x85 || n == 0xA0 || UnicodeBlank(n)
  }

  predicate UnicodeBlank(n: int) {
    n == 0x1680 || 0x2000 <= n <= 0x200A || n == 0x2028 || n == 0x2029 || n == 0x202F || n == 0x205F || n == 0x3000
  }

  /** A Python numeral without sign: digits with single underscores between them. */
  function PyDigits(s: string): (r: Option<string>)
    ensures r.Some? ==> AllDigits(r.value) && r.value != []
  {
    if s == [] then None
    else if |s| == 1 then if IsDigit(s[0]) then Some(s) else None
    else if !IsDigit(s[|s| - 1]) then None
    else
      var rest := s[..|s| - 1];
      match PyDigits(if rest[|rest| - 1] == '_' then rest[..|rest| - 1] else rest)
      case None => None
      case Some(d) => Some(d + [s[|s| - 1]])
  }

  /** `int(s)` on ASCII numerals. */
  function PyInt(s: string): Option<int> {
    var t := Strip(s, PySpace);
    var signed := t != [] && (t[0] == '+' || t[0] == '-');
    match PyDigits(if signed then t[1..] else t)
    case None => None
    case Some(d) =>
      var v: int := Value(d);
      Some(if signed && t[0] == '-' then -v else v)
  }

  /** A line as both Python readers take it apart: the stack before the last space, the integer after it. */
  function PyPair(line: string): Option<(string, int)> {
    var t := Strip(line, PySpace);
    var i := LastSpace(t);
    if i < 0 then None
    else
      match PyInt(t[i + 1..])
      case None => None
      case Some(n) => Some((t[..i], n))
  }

  /** `collapsed_to_tree` on one line. */
  function PySample(line: string, maxDepth: int): (r: Option<Sample>)
    ensures r.Some? ==> r.value.count > 0
  {
    match PyPair(line)
    case None => None
    case Some((stack, n)) => if n <= 0 then None else Some(Sample(Slice(Frames(stack), maxDepth), n))
  }

  // ----- TypeScript -----

  predicate JsSpace(c: char) {
    var n := c as int;
    || 9 <= n <= 13 || n == 32 || n == 0xA0 || n == 0xFEFF || UnicodeBlank(n)
  }

  /** `parseInt(s, 10)`: blanks, a sign, as many digits as follow; None is NaN. */
  function JsInt(s: string): Option<int> {
    var t := StripLeft(s, JsSpace);
    var signed := t != [] && (t[0] == '+' || t[0] == '-');
    var digits := if signed then t[1..] else t;
    var n := DigitPrefix(digits);
    if n == 0 then None
    else
      var v: int := Value(digits[..n]);
      Some(if signed && t[0] == '-' then -v else v)
  }

  /** `collapsedToTree` on one line; the depth is not limited. */
  function JsSample(line: string): (r: Option<Sample>)
    ensures r.Some? ==> r.value.count > 0
  {
    var t := Strip(line, JsSpace);
    var i := LastSpace(t);
    if i < 0 then None
    else
      match JsInt(t[i + 1..])
      case None => None
      case Some(n) => if n <= 0 then None else Some(Sample(Frames(t[..i]), n))
  }

  // ----- Agreement on what the writers print -----

  lemma DigitsReadable(s: string)
    requires AllDigits(s) && s != []
    ensures PyInt(s) == Some(Value(s)) && JsInt(s) == Some(Value(s))
  {
    assert IsDigit(s[0]) && IsDigit(s[|s| - 1]);
    StripNothing(s, PySpace);
    StripNothing(s, JsSpace);
    PyDigitsOfDigits(s);
    assert DigitPrefix(s) == |s| && s[..|s|] == s;
  }

  lemma {:induction false} PyDigitsOfDigits(s: string)
    requires AllDigits(s) && s != []
    ensures PyDigits(s) == Some(s)
  {
    if |s| > 1 {
      var rest := s[..|s| - 1];
      assert IsDigit(rest[|rest| - 1]);
      PyDigitsOfDigits(rest);
      assert rest + [s[|s| - 1]] == s;
    }
  }

  /** A stack none of the readers trims. */
  predicate Canonical(stack: string) {
    stack != [] && !PySpace(stack[0]) && !JsSpace(stack[0])
  }

  /** All four readers agree on a printed line with a positive count and a canonical stack within the depth limit. */
  lemma ReadersAgree(e: Entry, maxDepth: int)
    requires Canonical(e.stack) && 0 < e.count < U64 && |Frames(e.stack)| <= maxDepth
    ensures PyPair(Line(e.stack, e.count)) == Some((e.stack, e.count))
    ensures PySample(Line(e.stack, e.count), maxDepth) == Some(Sample(Frames(e.stack), e.count))
    ensures JsSample(Line(e.stack, e.count)) == Some(Sample(Frames(e.stack), e.count))
    ensures GoEntry(Line(e.stack, e.count)) == CppEntry(Line(e.stack, e.count)) == Some(e)
  {
    hide Frames, PyInt, JsInt, StripLeft, StripRight;
    var line, digits := Line(e.stack, e.count), Decimal(e.count);
    assert IsDigit(digits[|digits| - 1]) && line[|line| - 1] == digits[|digits| - 1];
    StripNothing(line, PySpace);
    StripNothing(line, JsSpace);
    LastSpaceOfLine(e.stack, e.count);
    DigitsReadable(digits);
    EntryRoundTrip(e.stack, e.count);
  }
}
