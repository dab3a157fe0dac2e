/**
 Folded stacks as text: one line per stack, the frames, a space and a count.  The format is
 written and read by C++ and Go here; module FlameText adds the Python and TypeScript readers.
 */
module FoldedText {
  import opened Wrappers

  /** Counts are uint64 in C++ and Go. */
  const U64 := 0x1_0000_0000_0000_0000

  /** Go's line scanner stops at the first line longer than this. */
  const SCAN_LIMIT := 65535

  datatype Entry = Entry(stack: string, count: nat)

  type Stacks = map<string, nat>

  // ----- Decimal numerals -----

  predicate IsDigit(c: char) {
    '0' <= c <= '9'
  }

  predicate AllDigits(s: string) {
    forall i :: 0 <= i < |s| ==> IsDigit(s[i])
  }

  function Value(s: string): nat
    requires AllDigits(s)
  {
    if s == [] then 0 else 10 * Value(s[..|s| - 1]) + (s[|s| - 1] as int - '0' as int)
  }

  /** How both writers print a count. */
  function Decimal(n: nat): (s: string)
    ensures AllDigits(s) && s != [] && Value(s) == n
  {
    var last := [('0' as int + n % 10) as char];
    if n < 10 then
      assert last[..0] == [];
      last
    else
      var s := Decimal(n / 10) + last;
      assert s[..|s| - 1] == Decimal(n / 10);
      s
  }

  // ----- Splitting -----

  /** Index of the last space, or -1. */
  function LastSpace(s: string): (i: int)
    ensures -1 <= i < |s|
    ensures 0 <= i ==> s[i] == ' '
    ensures forall j :: i < j < |s| ==> s[j] != ' '
  {
    if s == [] then -1
    else if s[|s| - 1] == ' ' then |s| - 1
    else LastSpace(s[..|s| - 1])
  }

  /** A text read so far: the complete lines and the characters since the last line feed. */
  datatype Reading = Reading(done: seq<string>, current: string)

  function Read(text: string): (r: Reading)
    ensures '\n' !in r.current && forall i :: 0 <= i < |r.done| ==> '\n' !in r.done[i]
  {
    if text == [] then Reading([], [])
    else
      var r, c := Read(text[..|text| - 1]), text[|text| - 1];
      if c == '\n' then Reading(r.done + [r.current], []) else Reading(r.done, r.current + [c])
  }

  /** The lines of a text as `getline` and Go's scanner read them: a final line feed starts no line. */
  function Lines(text: string): (r: seq<string>)
    ensures forall i :: 0 <= i < |r| ==> '\n' !in r[i]
  {
    var r := Read(text);
    if r.current == [] then r.done else r.done + [r.current]
  }

  /** The lines as text. */
  function Unlines(lines: seq<string>): string {
    if lines == [] then [] else Unlines(lines[..|lines| - 1]) + lines[|lines| - 1] + ['\n']
  }

  lemma {:induction false} ReadAppend(text: string, line: string)
    requires '\n' !in line
    ensures Read(text + line) == Reading(Read(text).done, Read(text).current + line)
  {
    var r := Read(text);
    if line == [] {
      assert text + line == text && r.current + line == r.current;
    } else {
      var init, c := line[..|line| - 1], line[|line| - 1];
      ReadAppend(text, init);
      assert (text + line)[..|text + line| - 1] == text + init;
      assert c in line && r.current + line == r.current + init + [c];
    }
  }

  lemma ReadNothing()
    ensures Read([]) == Reading([], [])
  {
  }

  lemma ReadLineFeed(text: string)
    ensures Read(text + ['\n']) == Reading(Read(text).done + [Read(text).current], [])
  {
  }

  lemma {:induction false} ReadUnlines(lines: seq<string>)
    requires forall i :: 0 <= i < |lines| ==> '\n' !in lines[i]
    ensures Read(Unlines(lines)) == Reading(lines, [])
  {
    hide Read;
    if lines == [] {
      ReadNothing();
    } else {
      var init, last := lines[..|lines| - 1], lines[|lines| - 1];
      var text := Unlines(init) + last;
      ReadUnlines(init);
      ReadAppend(Unlines(init), last);
      assert [] + last == last;
      ReadLineFeed(text);
      assert init + [last] == lines;
    }
  }

  /** Reading back what was written line by line gives the lines. */
  lemma LinesOfUnlines(lines: seq<string>)
    requires forall i :: 0 <= i < |lines| ==> '\n' !in lines[i]
    ensures Lines(Unlines(lines)) == lines
  {
    ReadUnlines(lines);
  }

  // ----- Counts -----

  predicate IsSpace(c: char) {
    c == ' ' || '\t' <= c <= '\r'
  }

  /** How many leading characters are blank, respectively digits. */
  function BlankPrefix(s: string): (n: nat)
    ensures n <= |s|
  {
    if s != [] && IsSpace(s[0]) then 1 + BlankPrefix(s[1..]) else 0
  }

  function DigitPrefix(s: string): (n: nat)
    ensures n <= |s| && AllDigits(s[..n])
    ensures n == |s| || !IsDigit(s[n])
  {
    if s != [] && IsDigit(s[0]) then
      var n := 1 + DigitPrefix(s[1..]);
      assert s[..n] == [s[0]] + s[1..][..n - 1];
      n
    else 0
  }

  /** `std::stoull`: blanks, a sign, then as many digits as follow; the rest is ignored and a minus wraps. */
  function CppCount(s: string): (r: Option<nat>)
    ensures r.Some? ==> r.value < U64
  {
    var t := s[BlankPrefix(s)..];
    var signed := t != [] && (t[0] == '+' || t[0] == '-');
    var digits := if signed then t[1..] else t;
    var n := DigitPrefix(digits);
    if n == 0 then None
    else
      var v := Value(digits[..n]);
      if v >= U64 then None
      else if signed && t[0] == '-' then Some((U64 - v) % U64)
      else Some(v)
  }

  /** `strconv.ParseUint`: digits only. */
  function GoCount(s: string): (r: Option<nat>)
    ensures r.Some? ==> r.value < U64
  {
    if s == [] || !AllDigits(s) || Value(s) >= U64 then None else Some(Value(s))
  }

  lemma CppCountOfDigits(s: string)
    requires AllDigits(s)
    ensures CppCount(s) == GoCount(s)
  {
    if s != [] {
      assert IsDigit(s[0]);
      assert BlankPrefix(s) == 0 && s[0..] == s;
      assert DigitPrefix(s) == |s| && s[..|s|] == s;
    }
  }

  /** What follows the blanks and the sign C++ allows. */
  function Numeral(s: string): string {
    var t := s[BlankPrefix(s)..];
    if t != [] && (t[0] == '+' || t[0] == '-') then t[1..] else t
  }

  /** More than digits, yet with a number in it that C++ finds and that fits 64 bits. */
  predicate Decorated(s: string) {
    var t := Numeral(s);
    !AllDigits(s) && DigitPrefix(t) > 0 && Value(t[..DigitPrefix(t)]) < U64
  }

  /** C++ and Go read a count alike if and only if it is not decorated; a decorated one only C++ accepts. */
  lemma CountsAgree(s: string)
    ensures CppCount(s) == GoCount(s) <==> !Decorated(s)
    ensures Decorated(s) ==> CppCount(s).Some? && GoCount(s).None?
  {
    if AllDigits(s) { CppCountOfDigits(s); }
  }

  /** Two decorated counts: C++ turns a negative one into a huge one and drops a tail. */
  lemma CppReadsMore()
    ensures CppCount("-1") == Some(U64 - 1) && GoCount("-1") == None
    ensures CppCount("7x") == Some(7) && GoCount("7x") == None
  {
    hide CppCount, GoCount;
    OneDigit('1', []);
    MinusRead("1");
    OneDigit('7', "x");
    assert "-1" == ['-'] + "1" && "7x" == ['7'] + "x";
    assert "1" == ['1'] + [];
    TailRead('7', 'x');
  }

  lemma OneDigit(c: char, tail: string)
    requires IsDigit(c) && (tail != [] ==> !IsDigit(tail[0]))
    ensures DigitPrefix([c] + tail) == 1 && ([c] + tail)[..1] == [c] && Value([c]) == c as int - '0' as int
  {
    assert ([c] + tail)[1..] == tail;
    assert [c][..0] == [];
  }

  lemma MinusRead(digits: string)
    requires DigitPrefix(digits) == |digits| == 1 && 0 < Value(digits) < U64
    ensures CppCount(['-'] + digits) == Some(U64 - Value(digits)) && GoCount(['-'] + digits) == None
  {
    hide DigitPrefix, Value;
    var s := ['-'] + digits;
    assert BlankPrefix(s) == 0 && s[0..] == s && s[1..] == digits && digits[..1] == digits;
    assert !IsDigit(s[0]);
  }

  lemma TailRead(c: char, x: char)
    requires IsDigit(c) && !IsDigit(x)
    ensures CppCount([c] + [x]) == Some(c as int - '0' as int) && GoCount([c] + [x]) == None
  {
    OneDigit(c, [x]);
    hide DigitPrefix, Value;
    var s := [c] + [x];
    assert BlankPrefix(s) == 0 && s[0..] == s;
    assert !IsDigit(s[1]);
  }

  // ----- Lines to entries -----

  /** `merge_collapsed` on one line. */
  function CppEntry(line: string): (r: Option<Entry>)
    ensures r.Some? ==> r.value.count < U64
  {
    var i := LastSpace(line);
    if i < 0 then None
    else
      match CppCount(line[i + 1..])
      case None => None
      case Some(n) => Some(Entry(line[..i], n))
  }

  /** `GetProfileWindow` on one line. */
  function GoEntry(line: string): (r: Option<Entry>)
    ensures r.Some? ==> r.value.count < U64
  {
    var i := LastSpace(line);
    if i < 0 then None
    else
      match GoCount(line[i + 1..])
      case None => None
      case Some(n) => Some(Entry(line[..i], n))
  }

  /** The two readers take a line alike if and only if it has no space or its count is not decorated. */
  lemma EntriesAgree(line: string)
    ensures CppEntry(line) == GoEntry(line) <==> LastSpace(line) < 0 || !Decorated(line[LastSpace(line) + 1..])
  {
    hide CppCount, GoCount, Decorated, LastSpace;
    if LastSpace(line) >= 0 { CountsAgree(line[LastSpace(line) + 1..]); }
  }

  /** One printed entry. */
  function Line(stack: string, count: nat): string {
    stack + [' '] + Decimal(count)
  }

  /** The only candidate is the last space. */
  lemma LastSpaceIs(s: string, n: nat)
    requires n < |s| && s[n] == ' ' && forall j :: n < j < |s| ==> s[j] != ' '
    ensures LastSpace(s) == n
  {
    hide LastSpace;
    var i := LastSpace(s);
    assert i >= n;
    assert i <= n;
  }

  lemma LineAt(stack: string, digits: string, j: nat)
    requires |stack| < j <= |stack| + |digits|
    ensures (stack + [' '] + digits)[j] == digits[j - |stack| - 1]
  {
  }

  lemma DigitsHaveNoSpace(digits: string)
    requires AllDigits(digits)
    ensures ' ' !in digits
  {
  }

  lemma LastSpaceBefore(stack: string, digits: string)
    requires ' ' !in digits
    ensures LastSpace(stack + [' '] + digits) == |stack|
  {
    hide LastSpace;
    var line, n := stack + [' '] + digits, |stack|;
    forall j | n < j < |line| ensures line[j] != ' ' {
      LineAt(stack, digits, j);
    }
    LastSpaceIs(line, n);
  }

  lemma LastSpaceOfLine(stack: string, count: nat)
    ensures LastSpace(Line(stack, count)) == |stack|
    ensures Line(stack, count)[..|stack|] == stack && Line(stack, count)[|stack| + 1..] == Decimal(count)
  {
    hide LastSpace, Decimal, AllDigits;
    DigitsHaveNoSpace(Decimal(count));
    LastSpaceBefore(stack, Decimal(count));
  }

  /** A printed entry is read back by Go and by C++, whatever the stack, the empty one included. */
  lemma EntryRoundTrip(stack: string, count: nat)
    requires count < U64
    ensures GoEntry(Line(stack, count)) == Some(Entry(stack, count))
    ensures CppEntry(Line(stack, count)) == Some(Entry(stack, count))
  {
    LastSpaceOfLine(stack, count);
    CppCountOfDigits(Decimal(count));
  }

  function CppEntries(lines: seq<string>): (r: seq<Entry>)
    ensures forall i :: 0 <= i < |r| ==> r[i].count < U64
  {
    if lines == [] then []
    else
      var e, init := CppEntry(lines[|lines| - 1]), CppEntries(lines[..|lines| - 1]);
      if e.Some? then init + [e.value] else init
  }

  function GoEntries(lines: seq<string>): (r: seq<Entry>)
    ensures forall i :: 0 <= i < |r| ==> r[i].count < U64
  {
    if lines == [] then []
    else
      var e, init := GoEntry(lines[|lines| - 1]), GoEntries(lines[..|lines| - 1]);
      if e.Some? then init + [e.value] else init
  }

  /** `bufio.Scanner`: a carriage return at the end of a line is dropped. */
  function DropCr(line: string): string {
    if line != [] && line[|line| - 1] == '\r' then line[..|line| - 1] else line
  }

  /** `bufio.Scanner`: the lines before the first one that is too long. */
  function Scanned(lines: seq<string>): (r: seq<string>)
    ensures |r| <= |lines|
  {
    if lines == [] then []
    else
      var n := |lines| - 1;
      var before := Scanned(lines[..n]);
      if |before| == n && |lines[n]| <= SCAN_LIMIT then before + [DropCr(lines[n])] else before
  }

  // ----- Entries to maps -----

  function Get(m: Stacks, k: string): nat {
    if k in m then m[k] else 0
  }

  /** `m[k] += n` on uint64. */
  function Add(m: Stacks, e: Entry): Stacks {
    m[e.stack := (Get(m, e.stack) + e.count) % U64]
  }

  function AddAll(m: Stacks, es: seq<Entry>): Stacks {
    if es == [] then m else Add(AddAll(m, es[..|es| - 1]), es[|es| - 1])
  }

  /** One turn of the readers' line loops. */
  lemma CppTurn(m: Stacks, lines: seq<string>, i: nat)
    requires i < |lines|
    ensures var before, e := AddAll(m, CppEntries(lines[..i])), CppEntry(lines[i]);
            AddAll(m, CppEntries(lines[..i + 1])) == if e.Some? then Add(before, e.value) else before
  {
    assert lines[..i + 1][..i] == lines[..i];
    var es := CppEntries(lines[..i + 1]);
    assert CppEntry(lines[i]).Some? ==> es[..|es| - 1] == CppEntries(lines[..i]);
  }

  lemma GoTurn(m: Stacks, lines: seq<string>, i: nat)
    requires i < |lines|
    ensures var before, e := AddAll(m, GoEntries(lines[..i])), GoEntry(lines[i]);
            AddAll(m, GoEntries(lines[..i + 1])) == if e.Some? then Add(before, e.value) else before
  {
    assert lines[..i + 1][..i] == lines[..i];
    var es := GoEntries(lines[..i + 1]);
    assert GoEntry(lines[i]).Some? ==> es[..|es| - 1] == GoEntries(lines[..i]);
  }

  /** The exact number of samples entries give a stack. */
  function Total(es: seq<Entry>, k: string): nat {
    if es == [] then 0
    else Total(es[..|es| - 1], k) + if es[|es| - 1].stack == k then es[|es| - 1].count else 0
  }

  predicate Mentions(es: seq<Entry>, k: string) {
    exists i :: 0 <= i < |es| && es[i].stack == k
  }

  predicate Bounded(m: Stacks) {
    forall k :: k in m ==> m[k] < U64
  }

  /** Arithmetic on uint64. */
  function Wrap(n: nat): nat {
    n % U64
  }

  lemma WrapAdd(a: nat, b: nat)
    ensures Wrap(Wrap(a) + b) == Wrap(a + b)
  {
    ModAdd(a, b);
  }

  lemma WrapBounded(m: Stacks, k: string)
    requires Bounded(m)
    ensures Wrap(Get(m, k)) == Get(m, k)
  {
  }

  lemma ModAdd(a: nat, b: nat)
    ensures (a % U64 + b) % U64 == (a + b) % U64
  {
  }

  /** Merging gives every stack its exact total modulo 2^64, and holds exactly the stacks mentioned. */
  lemma AddAllMeaning(m: Stacks, es: seq<Entry>, k: string)
    requires Bounded(m)
    ensures Bounded(AddAll(m, es))
    ensures Get(AddAll(m, es), k) == (Get(m, k) + Total(es, k)) % U64
    ensures k in AddAll(m, es) <==> k in m || Mentions(es, k)
  {
    hide AddAll, Total, Mentions, Bounded, Get;
    AddAllKeys(m, es, k);
    AddAllTotals(m, es, k);
  }

  lemma {:induction false} AddAllKeys(m: Stacks, es: seq<Entry>, k: string)
    requires Bounded(m)
    ensures Bounded(AddAll(m, es)) && (k in AddAll(m, es) <==> k in m || Mentions(es, k))
  {
    if es != [] {
      hide Bounded, Mentions, Get, Add;
      var init, last := es[..|es| - 1], es[|es| - 1];
      AddAllKeys(m, init, k);
      AddMeaning(AddAll(m, init), last, k);
      MentionsAppend(init, last, k);
      assert es == init + [last];
    }
  }

  lemma {:induction false} AddAllTotals(m: Stacks, es: seq<Entry>, k: string)
    requires Bounded(m)
    ensures Get(AddAll(m, es), k) == Wrap(Get(m, k) + Total(es, k))
  {
    hide Bounded, Get, Add, Wrap;
    if es == [] {
      WrapBounded(m, k);
    } else {
      var init, last := es[..|es| - 1], es[|es| - 1];
      AddAllTotals(m, init, k);
      AddAllKeys(m, init, k);
      AddMeaning(AddAll(m, init), last, k);
      WrapAdd(Get(m, k) + Total(init, k), last.count);
    }
  }

  lemma AddMeaning(m: Stacks, e: Entry, k: string)
    requires Bounded(m)
    ensures Bounded(Add(m, e)) && (k in Add(m, e) <==> k in m || k == e.stack)
    ensures Get(Add(m, e), k) == if k == e.stack then Wrap(Get(m, k) + e.count) else Get(m, k)
  {
  }

  lemma {:induction false} TotalAppend(a: seq<Entry>, b: seq<Entry>, k: string)
    ensures Total(a + b, k) == Total(a, k) + Total(b, k)
  {
    if b == [] {
      assert a + b == a;
    } else {
      assert (a + b)[..|a + b| - 1] == a + b[..|b| - 1];
      TotalAppend(a, b[..|b| - 1], k);
    }
  }

  lemma MentionsBoth(a: seq<Entry>, b: seq<Entry>, k: string)
    ensures Mentions(a + b, k) <==> Mentions(a, k) || Mentions(b, k)
  {
    if Mentions(a, k) {
      var i :| 0 <= i < |a| && a[i].stack == k;
      assert (a + b)[i].stack == k;
    }
    if Mentions(b, k) {
      var i :| 0 <= i < |b| && b[i].stack == k;
      assert (a + b)[|a| + i].stack == k;
    }
  }

  lemma {:induction false} AddAllAppend(m: Stacks, a: seq<Entry>, b: seq<Entry>)
    ensures AddAll(m, a + b) == AddAll(AddAll(m, a), b)
  {
    if b == [] {
      assert a + b == a;
    } else {
      assert (a + b)[..|a + b| - 1] == a + b[..|b| - 1];
      AddAllAppend(m, a, b[..|b| - 1]);
    }
  }

  // ----- Writing a map -----

  /** `es` lists the part of the map outside `rest`: every stack once, with its count. */
  ghost predicate ListsBut(es: seq<Entry>, m: Stacks, rest: set<string>) {
    && (forall i, j :: 0 <= i < j < |es| ==> es[i].stack != es[j].stack)
    && (forall i :: 0 <= i < |es| ==> es[i].stack in m && es[i].stack !in rest && m[es[i].stack] == es[i].count)
    && (forall k :: k in m && k !in rest ==> Mentions(es, k))
  }

  /** `es` lists the map. */
  ghost predicate Lists(es: seq<Entry>, m: Stacks) {
    ListsBut(es, m, {})
  }

  lemma MentionsAppend(es: seq<Entry>, e: Entry, k: string)
    ensures Mentions(es + [e], k) <==> Mentions(es, k) || e.stack == k
  {
    assert (es + [e])[|es|] == e;
    if Mentions(es, k) {
      var i :| 0 <= i < |es| && es[i].stack == k;
      assert (es + [e])[i].stack == k;
    }
  }

  lemma ListsMore(es: seq<Entry>, m: Stacks, rest: set<string>, k: string)
    requires ListsBut(es, m, rest) && k in rest && k in m
    ensures ListsBut(es + [Entry(k, m[k])], m, rest - {k})
  {
    forall x | x in m && x !in rest - {k} ensures Mentions(es + [Entry(k, m[k])], x) {
      MentionsAppend(es, Entry(k, m[k]), x);
    }
  }

  function Printed(es: seq<Entry>): (lines: seq<string>)
    ensures |lines| == |es|
    ensures forall i :: 0 <= i < |es| ==> lines[i] == Line(es[i].stack, es[i].count)
  {
    if es == [] then [] else Printed(es[..|es| - 1]) + [Line(es[|es| - 1].stack, es[|es| - 1].count)]
  }

  /** The file a list of entries is written to. */
  function FileText(es: seq<Entry>): string {
    Unlines(Printed(es))
  }

  /** No printed line is too long for Go's scanner. */
  predicate AllFit(es: seq<Entry>) {
    forall i :: 0 <= i < |es| ==> Fits(es[i])
  }

  predicate Fits(e: Entry) {
    |Line(e.stack, e.count)| <= SCAN_LIMIT
  }

  lemma UnlinesMore(es: seq<Entry>, e: Entry)
    ensures Unlines(Printed(es + [e])) == Unlines(Printed(es)) + Line(e.stack, e.count) + ['\n']
  {
  }

  /** The text lists the map, one line per stack, in some order. */
  ghost predicate Prints(text: string, m: Stacks) {
    exists es :: Lists(es, m) && text == FileText(es)
  }

  /** Writes a map in some order, as both writers do. */
  method Print(m: Stacks) returns (text: string)
    ensures Prints(text, m)
  {
    hide Line, ListsBut, Printed;
    var rest := m.Keys;
    text := [];
    ghost var es: seq<Entry> := [];
    PrintNothing(m);
    while rest != {}
      invariant rest <= m.Keys && ListsBut(es, m, rest) && text == FileText(es)
      decreases |rest|
    {
      var k :| k in rest;
      ListsMore(es, m, rest, k);
      UnlinesMore(es, Entry(k, m[k]));
      text := text + Line(k, m[k]) + ['\n'];
      es := es + [Entry(k, m[k])];
      rest := rest - {k};
    }
  }

  lemma PrintNothing(m: Stacks)
    ensures ListsBut([], m, m.Keys) && Unlines(Printed([])) == []
  {
  }

  lemma {:induction false} TotalOfListed(es: seq<Entry>, k: string)
    requires forall i, j :: 0 <= i < j < |es| ==> es[i].stack != es[j].stack
    ensures !Mentions(es, k) ==> Total(es, k) == 0
    ensures forall i :: 0 <= i < |es| && es[i].stack == k ==> Total(es, k) == es[i].count
  {
    if es != [] {
      var init, last := es[..|es| - 1], es[|es| - 1];
      TotalOfListed(init, k);
      if Mentions(init, k) {
        var j :| 0 <= j < |init| && init[j].stack == k;
        assert es[j].stack == k && last.stack != k;
      } else {
        assert forall j :: 0 <= j < |init| ==> init[j].stack != k by {
          forall j | 0 <= j < |init| ensures init[j].stack != k {
          }
        }
        assert last == es[|es| - 1];
      }
    }
  }

  lemma {:induction false} EntriesOfPrinted(es: seq<Entry>)
    requires forall i :: 0 <= i < |es| ==> es[i].count < U64
    ensures GoEntries(Printed(es)) == es && CppEntries(Printed(es)) == es
  {
    hide Line, GoEntry, CppEntry;
    if es != [] {
      var init, last := es[..|es| - 1], es[|es| - 1];
      EntriesOfPrinted(init);
      assert Printed(es)[..|es| - 1] == Printed(init);
      EntryRoundTrip(last.stack, last.count);
    }
  }

  /** A printed line ends in a digit. */
  lemma DropCrOfLine(e: Entry)
    ensures DropCr(Line(e.stack, e.count)) == Line(e.stack, e.count)
  {
  }

  /** A uint64 prints in at most 20 digits. */
  lemma DecimalLength(n: nat, digits: nat)
    requires n < Pow10(digits) && digits > 0
    ensures |Decimal(n)| <= digits
  {
    if n >= 10 { DecimalLength(n / 10, digits - 1); }
  }

  function Pow10(n: nat): nat {
    if n == 0 then 1 else 10 * Pow10(n - 1)
  }

  lemma CountLength(n: nat)
    requires n < U64
    ensures |Decimal(n)| <= 20
  {
    assert Pow10(5) == 100_000;
    assert Pow10(10) == 10_000_000_000;
    assert Pow10(15) == 1_000_000_000_000_000;
    assert Pow10(20) == 100_000_000_000_000_000_000;
    DecimalLength(n, 20);
  }

  /** A stack so short that its line fits the scanner whatever its count. */
  predicate Short(stack: string) {
    |stack| + 21 <= SCAN_LIMIT
  }

  lemma ShortFits(e: Entry)
    requires Short(e.stack) && e.count < U64
    ensures Fits(e)
  {
    CountLength(e.count);
  }

  lemma AllFitNone()
    ensures AllFit([])
  {
  }

  lemma AllFitLast(es: seq<Entry>)
    requires es != []
    ensures AllFit(es) <==> AllFit(es[..|es| - 1]) && Fits(es[|es| - 1])
  {
  }

  lemma PrintedLast(es: seq<Entry>)
    requires es != []
    ensures Printed(es)[..|es| - 1] == Printed(es[..|es| - 1])
    ensures Printed(es)[|es| - 1] == Line(es[|es| - 1].stack, es[|es| - 1].count)
  {
  }

  /** Go's scanner returns all printed lines exactly when each of them fits. */
  lemma {:induction false} ScannedPrinted(es: seq<Entry>)
    ensures AllFit(es) <==> |Scanned(Printed(es))| == |es|
    ensures Scanned(Printed(es)) == Printed(es[..|Scanned(Printed(es))|])
  {
    hide Line, DropCr, AllFit, Printed;
    if es == [] {
      AllFitNone();
    } else {
      var init, last := es[..|es| - 1], es[|es| - 1];
      ScannedPrinted(init);
      PrintedLast(es);
      DropCrOfLine(last);
      AllFitLast(es);
      var n := |Scanned(Printed(es))|;
      if n == |es| {
        assert es[..n] == es && init[..|init|] == init;
        assert Printed(es) == Printed(init) + [Line(last.stack, last.count)];
      } else {
        assert es[..n] == init[..n];
      }
    }
  }

  // ----- Files -----

  /** What the window query reads from a file. */
  function FileEntries(text: string): seq<Entry> {
    GoEntries(Scanned(Lines(text)))
  }

  /** Every count is a uint64 and no stack contains a line feed. */
  predicate Writable(es: seq<Entry>) {
    forall i :: 0 <= i < |es| ==> es[i].count < U64 && '\n' !in es[i].stack
  }

  lemma LineHasNoLineFeed(e: Entry)
    requires '\n' !in e.stack
    ensures '\n' !in Line(e.stack, e.count)
  {
  }

  lemma LinesOfFile(es: seq<Entry>)
    requires Writable(es)
    ensures Lines(FileText(es)) == Printed(es)
  {
    hide Line, Lines, Unlines;
    forall i | 0 <= i < |es| ensures '\n' !in Printed(es)[i] {
      LineHasNoLineFeed(es[i]);
    }
    LinesOfUnlines(Printed(es));
  }

  /** A written file read by C++ again gives its entries. */
  lemma CppReadsFile(es: seq<Entry>)
    requires Writable(es)
    ensures CppEntries(Lines(FileText(es))) == es
  {
    LinesOfFile(es);
    EntriesOfPrinted(es);
  }

  /** The window query reads a written file up to the first line that does not fit. */
  lemma GoReadsFile(es: seq<Entry>)
    requires Writable(es)
    ensures FileEntries(FileText(es)) <= es
    ensures FileEntries(FileText(es)) == es <==> AllFit(es)
  {
    hide FileText, Lines, Scanned, Printed, GoEntries, AllFit;
    LinesOfFile(es);
    ScannedPrinted(es);
    var n := |Scanned(Printed(es))|;
    EntriesOfPrinted(es[..n]);
    assert n == |es| ==> es[..n] == es;
  }

  lemma {:induction false} MentionsPrefix(es: seq<Entry>, n: nat, k: string)
    requires n <= |es| && forall i, j :: 0 <= i < j < |es| ==> es[i].stack != es[j].stack
    requires n < |es| && es[n].stack == k
    ensures !Mentions(es[..n], k)
  {
  }

  /** Adding up a listing of a map gives the map. */
  lemma AddListed(m: Stacks, es: seq<Entry>)
    requires Lists(es, m) && Writable(es)
    ensures AddAll(map[], es) == m
  {
    forall k ensures (k in AddAll(map[], es) <==> k in m) && Get(AddAll(map[], es), k) == Get(m, k) {
      AddAllMeaning(map[], es, k);
      TotalOfListed(es, k);
      ListsMeaning(es, m, k);
    }
    MapEqual(AddAll(map[], es), m);
  }

  lemma AddListedPrefix(m: Stacks, es: seq<Entry>, n: nat)
    requires Lists(es, m) && n < |es|
    ensures AddAll(map[], es[..n]) != m
  {
    var k := es[n].stack;
    MentionsPrefix(es, n, k);
    AddAllMeaning(map[], es[..n], k);
    assert k in m;
  }

  /**
   Print and read back: for a map of uint64 counts whose stacks contain no line feed, the window
   query reads a written file as that very map exactly when every line fits the scanner.
   */
  lemma MapRoundTrip(m: Stacks, es: seq<Entry>)
    requires Lists(es, m) && Writable(es)
    ensures AddAll(map[], FileEntries(FileText(es))) == m <==> forall k :: k in m ==> Fits(Entry(k, m[k]))
  {
    hide ListsBut, Writable, AllFit, Fits, FileEntries, FileText, AddAll;
    GoReadsFile(es);
    AllFitOfMap(m, es);
    var read := FileEntries(FileText(es));
    if AllFit(es) {
      AddListed(m, es);
    } else {
      assert read == es[..|read|];
      AddListedPrefix(m, es, |read|);
    }
  }

  lemma ListsMeaning(es: seq<Entry>, m: Stacks, k: string)
    requires Lists(es, m)
    ensures k in m <==> Mentions(es, k)
    ensures k in m ==> exists i :: 0 <= i < |es| && es[i] == Entry(k, m[k])
  {
  }

  lemma AllFitOfMap(m: Stacks, es: seq<Entry>)
    requires Lists(es, m)
    ensures AllFit(es) <==> forall k :: k in m ==> Fits(Entry(k, m[k]))
  {
  }

  lemma MapEqual(a: Stacks, b: Stacks)
    requires forall k :: (k in a <==> k in b) && Get(a, k) == Get(b, k)
    ensures a == b
  {
  }
}
