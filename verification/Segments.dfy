/** Continuous profiling as values: the segments a run writes, their keys, and the window query over them. */
module Segments {
  import opened Wrappers
  import opened FoldedText

  /** Shortest distance between the starts of two segments. */
  const SEGMENT_SECONDS := 300

  /** A `continuous_profile_segments` row. */
  datatype Row = Row(tid: string, start: int, end: int, key: string)

  /** What became of a request: not carried out, carried out but the answer lost, or answered with success. */
  datatype Rpc = NotDone | Unanswered | Answered

  /**
   One segment file: the interval it claims, the start of the segment after it, the entries written to
   it, how many characters of them reached the disk if not all did, and what became of its upload and
   registration.
   */
  datatype Segment = Segment(start: int, end: int, next: int, entries: seq<Entry>, kept: Option<nat>, upload: Rpc, register: Rpc) {
    /** What the file holds: writes are not checked, so a full disk cuts it short. */
    function Text(): string {
      if kept.Some? && kept.value < |FileText(entries)| then FileText(entries)[..kept.value] else FileText(entries)
    }

    predicate Stored() {
      !upload.NotDone?
    }

    predicate Registered() {
      upload.Answered? && !register.NotDone?
    }
  }

  // ----- Paths and keys -----

  function IntText(n: int): (s: string)
    ensures '/' !in s
  {
    if n < 0 then assert '/' !in Decimal(-n) by { NoSlash(-n); } ['-'] + Decimal(-n)
    else assert '/' !in Decimal(n) by { NoSlash(n); } Decimal(n)
  }

  lemma NoSlash(n: nat)
    ensures '/' !in Decimal(n)
  {
  }

  lemma IntTextSign(n: int)
    ensures IntText(n)[0] == '-' <==> n < 0
    ensures IntText(n) == if n < 0 then ['-'] + Decimal(-n) else Decimal(n)
  {
  }

  /** Distinct numbers print differently. */
  lemma IntTextInjective(a: int, b: int)
    requires IntText(a) == IntText(b)
    ensures a == b
  {
    IntTextSign(a);
    IntTextSign(b);
    if a < 0 {
      assert (['-'] + Decimal(-a))[1..] == Decimal(-a) && (['-'] + Decimal(-b))[1..] == Decimal(-b);
    }
  }

  const COLLAPSED: string := "collapsed.txt"

  function RelativeFile(start: int): string {
    IntText(start) + ['/'] + COLLAPSED
  }

  function SegmentPath(dir: string, start: int): string {
    dir + ['/'] + RelativeFile(start)
  }

  function SegmentKey(tid: string, start: int): string {
    tid + ['/'] + RelativeFile(start)
  }

  /** Last slash before index `n`, or -1. */
  function LastSlash(s: string, n: nat): (i: int)
    requires n <= |s|
    ensures -1 <= i < n
    ensures 0 <= i ==> s[i] == '/'
    ensures forall j :: i < j < n ==> s[j] != '/'
  {
    if n == 0 then -1 else if s[n - 1] == '/' then n - 1 else LastSlash(s, n - 1)
  }

  /** `upload_segment`: the path from its last but one slash on. */
  function RelativePath(path: string): string {
    var last := LastSlash(path, |path|);
    var second := if last < 0 then last else LastSlash(path, last);
    if second >= 0 then path[second + 1..] else path[last + 1..]
  }

  /** `UploadTaskFile`: the route parameter carries a leading slash, of which one is dropped. */
  function StoredKey(tid: string, param: string): string {
    tid + ['/'] + if param != [] && param[0] == '/' then param[1..] else param
  }

  lemma RelativePathOf(dir: string, folder: string, file: string)
    requires '/' !in folder && '/' !in file
    ensures RelativePath(dir + ['/'] + (folder + ['/'] + file)) == folder + ['/'] + file
  {
    var path := dir + ['/'] + (folder + ['/'] + file);
    var a, b := |dir|, |dir| + 1 + |folder|;
    assert path[a] == '/' && path[b] == '/';
    forall j | a < j < b ensures path[j] != '/' {
      assert path[j] == folder[j - a - 1];
    }
    forall j | b < j < |path| ensures path[j] != '/' {
      assert path[j] == file[j - b - 1];
    }
    assert LastSlash(path, |path|) == b;
    assert LastSlash(path, b) == a;
    assert path[a + 1..] == folder + ['/'] + file;
  }

  /** The key a segment is registered under is the key its file is stored under, for any output directory. */
  lemma KeysAgree(tid: string, dir: string, start: int)
    ensures RelativePath(SegmentPath(dir, start)) == RelativeFile(start)
    ensures StoredKey(tid, ['/'] + RelativePath(SegmentPath(dir, start))) == SegmentKey(tid, start)
  {
    RelativePathOf(dir, IntText(start), COLLAPSED);
    assert (['/'] + RelativeFile(start))[1..] == RelativeFile(start);
  }

  lemma PathsDiffer(prefix: string, a: int, b: int)
    requires a != b
    ensures prefix + ['/'] + RelativeFile(a) != prefix + ['/'] + RelativeFile(b)
  {
    if prefix + ['/'] + RelativeFile(a) == prefix + ['/'] + RelativeFile(b) {
      var n := |prefix| + 1;
      assert (prefix + ['/'] + RelativeFile(a))[n..] == RelativeFile(a);
      assert (prefix + ['/'] + RelativeFile(b))[n..] == RelativeFile(b);
      var m := |IntText(a)|;
      assert |IntText(b)| == m;
      assert RelativeFile(a)[..m] == IntText(a) && RelativeFile(b)[..m] == IntText(b);
      IntTextInjective(a, b);
    }
  }

  // ----- Timeline -----

  /** Each segment starts where its predecessor said, at least 300 s after it; `start` is the running one. */
  predicate Timeline(segments: seq<Segment>, start: int) {
    && (forall i :: 0 <= i < |segments| ==> segments[i].next >= segments[i].start + SEGMENT_SECONDS)
    && (forall i :: 0 <= i < |segments| ==> segments[i].next <= start)
    && (forall i {:trigger segments[i]} :: 0 < i < |segments| ==> segments[i - 1].next <= segments[i].start)
  }

  lemma {:induction false} StartsIncrease(segments: seq<Segment>, start: int, i: nat, j: nat)
    requires Timeline(segments, start) && i < j < |segments|
    ensures segments[i].start + SEGMENT_SECONDS <= segments[j].start
  {
    if i + 1 < j { StartsIncrease(segments, start, i, j - 1); }
    assert segments[j - 1].next <= segments[j].start;
  }

  /** With no failed write and a clock that does not run backwards, a segment starts before its predecessor ends. */
  predicate Gapless(segments: seq<Segment>) {
    forall i {:trigger segments[i]} :: 0 < i < |segments| ==> segments[i].start <= segments[i - 1].end
  }

  /** The overlap condition of the window query. */
  predicate Overlaps(row: Row, a: int, b: int) {
    row.start < b && row.end > a
  }

  function RowOf(tid: string, segment: Segment): Row {
    Row(tid, segment.start, segment.end, SegmentKey(tid, segment.start))
  }

  /** The last segment starting before `b`. */
  lemma {:induction false} FindCovering(tid: string, segments: seq<Segment>, a: int, b: int) returns (i: nat)
    requires Gapless(segments) && segments != [] && a < b
    requires segments[0].start <= a && b <= segments[|segments| - 1].end
    ensures i < |segments| && Overlaps(RowOf(tid, segments[i]), a, b)
  {
    var n := |segments| - 1;
    if segments[n].start < b {
      i := n;
    } else {
      assert segments[n].start <= segments[n - 1].end;
      i := FindCovering(tid, segments[..n], a, b);
    }
  }

  // ----- Files, objects and rows a run leaves behind -----

  ghost predicate OnDisk(disk: map<string, string>, dir: string, segments: seq<Segment>) {
    forall i :: 0 <= i < |segments| ==>
      var path := SegmentPath(dir, segments[i].start);
      path in disk && disk[path] == segments[i].Text()
  }

  /** A stored object is found under its key with the content of its file. */
  predicate Holds(objects: map<string, string>, tid: string, segment: Segment) {
    var key := SegmentKey(tid, segment.start);
    key in objects && objects[key] == segment.Text()
  }

  ghost predicate InStore(objects: map<string, string>, tid: string, segments: seq<Segment>) {
    forall i :: 0 <= i < |segments| && segments[i].Stored() ==> Holds(objects, tid, segments[i])
  }

  ghost predicate AllWritable(segments: seq<Segment>) {
    forall i :: 0 <= i < |segments| ==> Writable(segments[i].entries)
  }

  /** The rows registered for a run. */
  function RowsOf(tid: string, segments: seq<Segment>): seq<Row> {
    if segments == [] then []
    else
      var last, init := segments[|segments| - 1], RowsOf(tid, segments[..|segments| - 1]);
      if last.Registered() then init + [RowOf(tid, last)] else init
  }

  predicate AllRegistered(segments: seq<Segment>) {
    forall i :: 0 <= i < |segments| ==> segments[i].Registered()
  }

  /** A new segment file overwrites none of the older ones. */
  lemma DiskGrows(disk: map<string, string>, dir: string, segments: seq<Segment>, segment: Segment, start: int)
    requires OnDisk(disk, dir, segments) && Timeline(segments, start) && start <= segment.start
    ensures OnDisk(disk[SegmentPath(dir, segment.start) := segment.Text()], dir, segments + [segment])
  {
    hide RelativeFile;
    var disk' := disk[SegmentPath(dir, segment.start) := segment.Text()];
    forall i | 0 <= i < |segments|
      ensures var path := SegmentPath(dir, segments[i].start);
              path in disk' && disk'[path] == segments[i].Text()
    {
      assert segments[i].start < segment.start;
      PathsDiffer(dir, segments[i].start, segment.start);
    }
  }

  lemma StoreGrows(objects: map<string, string>, tid: string, segments: seq<Segment>, segment: Segment, start: int)
    requires InStore(objects, tid, segments) && Timeline(segments, start) && start <= segment.start
    ensures var objects' := if segment.Stored()
                            then objects[SegmentKey(tid, segment.start) := segment.Text()] else objects;
            InStore(objects', tid, segments + [segment])
  {
    var objects' := if segment.Stored()
                    then objects[SegmentKey(tid, segment.start) := segment.Text()] else objects;
    forall i | 0 <= i < |segments| && segments[i].Stored() ensures Holds(objects', tid, segments[i]) {
      assert Holds(objects, tid, segments[i]) && segments[i].start < segment.start;
      PathsDiffer(tid, segments[i].start, segment.start);
    }
  }

  lemma TimelineGrows(segments: seq<Segment>, start: int, segment: Segment)
    requires Timeline(segments, start) && segment.start == start && segment.next >= start + SEGMENT_SECONDS
    ensures Timeline(segments + [segment], segment.next)
  {
  }

  lemma RowsGrow(tid: string, segments: seq<Segment>, segment: Segment)
    ensures RowsOf(tid, segments + [segment])
         == if segment.Registered() then RowsOf(tid, segments) + [RowOf(tid, segment)] else RowsOf(tid, segments)
  {
  }

  // ----- Conservation -----

  /** Everything in the written files, in order. */
  function Flushed(segments: seq<Segment>): seq<Entry> {
    if segments == [] then [] else Flushed(segments[..|segments| - 1]) + segments[|segments| - 1].entries
  }

  /** Per stack, samples merged equal samples in memory plus samples in files modulo 2^64, and no stack is lost. */
  ghost predicate Conserved(stacks: Stacks, segments: seq<Segment>, merged: seq<Entry>) {
    forall k :: Balanced(stacks, segments, merged, k)
  }

  predicate Balanced(stacks: Stacks, segments: seq<Segment>, merged: seq<Entry>, k: string) {
    && (Get(stacks, k) + Total(Flushed(segments), k)) % U64 == Total(merged, k) % U64
    && (k in stacks || Mentions(Flushed(segments), k) <==> Mentions(merged, k))
  }

  lemma ModBoth(a: nat, b: nat, c: nat)
    requires a % U64 == b % U64
    ensures (a + c) % U64 == (b + c) % U64
  {
  }

  lemma MergeBalances(stacks: Stacks, segments: seq<Segment>, merged: seq<Entry>, more: seq<Entry>, k: string)
    requires Bounded(stacks) && Balanced(stacks, segments, merged, k)
    ensures Balanced(AddAll(stacks, more), segments, merged + more, k)
  {
    hide AddAll, Total, Flushed, Mentions;
    var inFiles, inMemory, added := Total(Flushed(segments), k), Get(stacks, k), Total(more, k);
    MentionsBoth(merged, more, k);
    AddAllMeaning(stacks, more, k);
    TotalAppend(merged, more, k);
    ModAdd(inMemory + added, inFiles);
    ModBoth(inMemory + inFiles, Total(merged, k), added);
  }

  /** Merging a burst moves its samples into memory. */
  lemma MergeConserves(stacks: Stacks, segments: seq<Segment>, merged: seq<Entry>, more: seq<Entry>)
    requires Bounded(stacks) && Conserved(stacks, segments, merged)
    ensures Conserved(AddAll(stacks, more), segments, merged + more)
  {
    forall k ensures Balanced(AddAll(stacks, more), segments, merged + more, k) {
      assert Balanced(stacks, segments, merged, k);
      MergeBalances(stacks, segments, merged, more, k);
    }
  }

  lemma FlushBalances(stacks: Stacks, segments: seq<Segment>, merged: seq<Entry>, segment: Segment, k: string)
    requires Lists(segment.entries, stacks) && Balanced(stacks, segments, merged, k)
    ensures Balanced(map[], segments + [segment], merged, k)
  {
    hide Mentions, Total;
    assert (segments + [segment])[..|segments|] == segments;
    MentionsBoth(Flushed(segments), segment.entries, k);
    TotalAppend(Flushed(segments), segment.entries, k);
    TotalOfListed(segment.entries, k);
    ListsMeaning(segment.entries, stacks, k);
  }

  /** Writing a segment moves all samples in memory into its file. */
  lemma FlushConserves(stacks: Stacks, segments: seq<Segment>, merged: seq<Entry>, segment: Segment)
    requires Lists(segment.entries, stacks) && Conserved(stacks, segments, merged)
    ensures Conserved(map[], segments + [segment], merged)
  {
    forall k ensures Balanced(map[], segments + [segment], merged, k) {
      assert Balanced(stacks, segments, merged, k);
      FlushBalances(stacks, segments, merged, segment, k);
    }
  }

  lemma {:induction false} FlushedMentions(segments: seq<Segment>, i: nat, k: string)
    requires i < |segments| && Mentions(segments[i].entries, k)
    ensures Mentions(Flushed(segments), k)
  {
    var n := |segments| - 1;
    if i < n { FlushedMentions(segments[..n], i, k); }
    MentionsBoth(Flushed(segments[..n]), segments[n].entries, k);
  }

  lemma {:induction false} DecimalPrefix(n: nat, k: nat)
    requires 0 < k < |Decimal(n)|
    ensures AllDigits(Decimal(n)[..k]) && Value(Decimal(n)[..k]) < n
  {
    var start := Decimal(n / 10);
    assert Decimal(n)[..k] == start[..k];
    if k < |start| { DecimalPrefix(n / 10, k); } else { assert start[..k] == start; }
  }

  /** A line that lacks its last characters does not read as its entry. */
  lemma CutLine(e: Entry, m: nat)
    requires m < |Line(e.stack, e.count)|
    ensures GoEntry(DropCr(Line(e.stack, e.count)[..m])) != Some(e)
  {
    hide Decimal, Value, LastSpace, GoCount;
    var line, digits, n := Line(e.stack, e.count), Decimal(e.count), |e.stack|;
    var part := line[..m];
    if m <= n {
      assert part == e.stack[..m];
      assert LastSpace(DropCr(part)) < |DropCr(part)| <= m;
    } else {
      var k := m - n - 1;
      assert part == e.stack + [' '] + digits[..k];
      assert k > 0 ==> IsDigit(digits[k - 1]);
      assert part[m - 1] != '\r' && DropCr(part) == part;
      DigitsHaveNoSpace(digits[..k]);
      LastSpaceBefore(e.stack, digits[..k]);
      assert part[n + 1..] == digits[..k] && part[..n] == e.stack;
      if k > 0 { DecimalPrefix(e.count, k); }
      CountOf(digits[..k]);
    }
  }

  lemma CountOf(s: string)
    ensures GoCount(s).Some? ==> s != [] && AllDigits(s) && GoCount(s).value == Value(s)
  {
  }

  /** Reading whole lines and then a piece of one. */
  lemma EntriesOfCut(es: seq<Entry>, part: string)
    requires Writable(es) && AllFit(es) && '\n' !in part && |part| <= SCAN_LIMIT
    ensures var e := GoEntry(DropCr(part));
            FileEntries(FileText(es) + part) == if part != [] && e.Some? then es + [e.value] else es
  {
    hide Line, Scanned, GoEntries, GoEntry, DropCr, AllFit, Printed, Read, Unlines;
    forall i | 0 <= i < |es| ensures '\n' !in Printed(es)[i] {
      assert Printed(es)[i] == Line(es[i].stack, es[i].count);
      LineHasNoLineFeed(es[i]);
    }
    ReadUnlines(Printed(es));
    ReadAppend(FileText(es), part);
    assert [] + part == part;
    GoReadsPrinted(es);
    OneMoreScanned(Printed(es), part);
  }

  lemma GoReadsPrinted(es: seq<Entry>)
    requires Writable(es) && AllFit(es)
    ensures Scanned(Printed(es)) == Printed(es) && GoEntries(Printed(es)) == es
  {
    hide Scanned, Printed, AllFit, GoEntries;
    ScannedPrinted(es);
    assert es[..|es|] == es;
    EntriesOfPrinted(es);
  }

  lemma OneMoreScanned(lines: seq<string>, part: string)
    requires Scanned(lines) == lines && |part| <= SCAN_LIMIT
    ensures var e := GoEntry(DropCr(part)); var init := GoEntries(lines);
            GoEntries(Scanned(lines + [part])) == if e.Some? then init + [e.value] else init
  {
    hide GoEntry, DropCr;
    assert (lines + [part])[..|lines|] == lines;
    var more := lines + [DropCr(part)];
    assert Scanned(lines + [part]) == more;
    assert more[..|lines|] == lines;
  }

  lemma WholePlusOne(init: seq<Entry>, last: Entry)
    ensures Writable(init + [last]) ==> Writable(init) && last.count < U64 && '\n' !in last.stack
    ensures AllFit(init + [last]) ==> AllFit(init) && Fits(last)
    ensures FileText(init + [last]) == FileText(init) + Line(last.stack, last.count) + ['\n']
  {
    hide Fits, Line;
    var es := init + [last];
    assert es[|init|] == last && forall i :: 0 <= i < |init| ==> es[i] == init[i];
    UnlinesMore(init, last);
  }

  /** The file ends somewhere in its last line. */
  lemma CutInLastLine(init: seq<Entry>, last: Entry, m: nat)
    requires Writable(init + [last]) && AllFit(init + [last]) && m <= |Line(last.stack, last.count)|
    ensures var r := FileEntries(FileText(init) + Line(last.stack, last.count)[..m]);
            && |r| <= |init| + 1
            && (r == init + [last] <==> m == |Line(last.stack, last.count)|)
  {
    hide Writable, AllFit, FileText, FileEntries, GoEntry, DropCr, Line;
    var line := Line(last.stack, last.count);
    WholePlusOne(init, last);
    LineHasNoLineFeed(last);
    EntriesOfCut(init, line[..m]);
    assert (init + [last])[|init|] == last;
    if m < |line| {
      CutLine(last, m);
      var e := GoEntry(DropCr(line[..m]));
      assert e.Some? ==> (init + [e.value])[|init|] == e.value;
    } else {
      assert line[..m] == line;
      DropCrOfLine(last);
      EntryRoundTrip(last.stack, last.count);
      LineIsNotEmpty(last);
    }
  }

  lemma LineIsNotEmpty(e: Entry)
    ensures Line(e.stack, e.count) != []
  {
  }

  lemma {:induction false} CutReadsFewer(es: seq<Entry>, n: nat)
    requires Writable(es) && AllFit(es) && n <= |FileText(es)|
    ensures |FileEntries(FileText(es)[..n])| <= |es|
    ensures es != [] ==> (FileEntries(FileText(es)[..n]) == es <==> n >= |FileText(es)| - 1)
  {
    hide Writable, AllFit, FileText, FileEntries, Line;
    var text := FileText(es);
    if n == |text| {
      assert text[..n] == text;
      GoReadsFile(es);
    } else if es == [] {
      NoTextAtAll();
    } else {
      var init, last := es[..|es| - 1], es[|es| - 1];
      assert es == init + [last];
      WholePlusOne(init, last);
      var k := |FileText(init)|;
      if n < k {
        assert text[..n] == FileText(init)[..n];
        CutReadsFewer(init, n);
      } else {
        assert text[..n] == FileText(init) + Line(last.stack, last.count)[..n - k];
        CutInLastLine(init, last, n - k);
      }
    }
  }

  lemma NoTextAtAll()
    ensures FileText([]) == []
  {
  }

  /** A segment file gives its entries back if and only if no more than its last line feed is missing. */
  lemma CutFileExactly(segment: Segment)
    requires Writable(segment.entries) && AllFit(segment.entries) && segment.entries != []
    ensures FileEntries(segment.Text()) == segment.entries
       <==> segment.kept.None? || segment.kept.value >= |FileText(segment.entries)| - 1
  {
    hide FileEntries, FileText, Writable, AllFit;
    var text := FileText(segment.entries);
    var n := if segment.kept.Some? && segment.kept.value < |text| then segment.kept.value else |text|;
    assert segment.Text() == text[..n];
    CutReadsFewer(segment.entries, n);
  }

  /** If every merged stack is short, every line of every segment fits the scanner. */
  lemma ShortRunFits(stacks: Stacks, segments: seq<Segment>, merged: seq<Entry>, i: nat)
    requires Conserved(stacks, segments, merged) && AllWritable(segments) && i < |segments|
    requires forall j :: 0 <= j < |merged| ==> Short(merged[j].stack)
    ensures AllFit(segments[i].entries)
  {
    var es := segments[i].entries;
    forall j | 0 <= j < |es| ensures Fits(es[j]) {
      var k := es[j].stack;
      assert Mentions(es, k);
      FlushedMentions(segments, i, k);
      assert Balanced(stacks, segments, merged, k);
      var m :| 0 <= m < |merged| && merged[m].stack == k;
      assert Writable(es);
      ShortFits(es[j]);
    }
  }

  // ----- The window query -----

  /** The rows of a task that overlap the window. */
  function Selected(rows: seq<Row>, tid: string, a: int, b: int): seq<Row> {
    if rows == [] then []
    else
      var last, init := rows[|rows| - 1], Selected(rows[..|rows| - 1], tid, a, b);
      if last.tid == tid && Overlaps(last, a, b) then init + [last] else init
  }

  /** What the query reads; objects that cannot be downloaded are skipped. */
  function WindowEntries(rows: seq<Row>, objects: map<string, string>): seq<Entry> {
    if rows == [] then []
    else
      var key, init := rows[|rows| - 1].key, WindowEntries(rows[..|rows| - 1], objects);
      if key in objects then init + FileEntries(objects[key]) else init
  }

  lemma {:induction false} SelectedAppend(a0: seq<Row>, b0: seq<Row>, tid: string, a: int, b: int)
    ensures Selected(a0 + b0, tid, a, b) == Selected(a0, tid, a, b) + Selected(b0, tid, a, b)
  {
    if b0 == [] {
      assert a0 + b0 == a0;
    } else {
      assert (a0 + b0)[..|a0 + b0| - 1] == a0 + b0[..|b0| - 1];
      SelectedAppend(a0, b0[..|b0| - 1], tid, a, b);
    }
  }

  lemma {:induction false} RowsOfRegistered(tid: string, segments: seq<Segment>)
    requires AllRegistered(segments)
    ensures |RowsOf(tid, segments)| == |segments|
    ensures forall i :: 0 <= i < |segments| ==> RowsOf(tid, segments)[i] == RowOf(tid, segments[i])
  {
    hide RowOf;
    if segments != [] {
      var init := segments[..|segments| - 1];
      RowsOfRegistered(tid, init);
      assert RowsOf(tid, segments) == RowsOf(tid, init) + [RowOf(tid, segments[|init|])];
    }
  }

  lemma {:induction false} SelectedHas(rows: seq<Row>, tid: string, a: int, b: int, i: nat)
    requires i < |rows| && rows[i].tid == tid && Overlaps(rows[i], a, b)
    ensures rows[i] in Selected(rows, tid, a, b)
  {
    if i < |rows| - 1 { SelectedHas(rows[..|rows| - 1], tid, a, b, i); }
  }

  /**
   Gapless coverage: whatever else is in the table, the query of every non-empty window inside the
   recorded time of a gapless, fully registered run finds a segment of that run.
   */
  lemma WindowIsCovered(rows: seq<Row>, tid: string, segments: seq<Segment>, a: int, b: int)
    requires Gapless(segments) && AllRegistered(segments) && segments != [] && a < b
    requires segments[0].start <= a && b <= segments[|segments| - 1].end
    ensures exists row :: row in RowsOf(tid, segments) && row in Selected(rows + RowsOf(tid, segments), tid, a, b)
  {
    var i := FindCovering(tid, segments, a, b);
    RowsOfRegistered(tid, segments);
    var row := RowsOf(tid, segments)[i];
    var all := rows + RowsOf(tid, segments);
    assert all[|rows| + i] == row;
    SelectedHas(all, tid, a, b, |rows| + i);
  }

  /** A segment was written in full, stored and registered, fits the scanner and overlaps the window. */
  predicate Delivered(segment: Segment, tid: string, a: int, b: int) {
    segment.Registered() && segment.kept.None? && AllFit(segment.entries) && Overlaps(RowOf(tid, segment), a, b)
  }

  lemma {:induction false} RunIsRead(
      segments: seq<Segment>, objects: map<string, string>, tid: string, a: int, b: int)
    requires AllWritable(segments) && InStore(objects, tid, segments)
    requires forall i :: 0 <= i < |segments| ==> Delivered(segments[i], tid, a, b)
    ensures Selected(RowsOf(tid, segments), tid, a, b) == RowsOf(tid, segments)
    ensures WindowEntries(RowsOf(tid, segments), objects) == Flushed(segments)
  {
    if segments != [] {
      var init, last := segments[..|segments| - 1], segments[|segments| - 1];
      forall i | 0 <= i < |init| ensures init[i] == segments[i] && Delivered(init[i], tid, a, b) {
        assert Delivered(segments[i], tid, a, b);
      }
      RunIsRead(init, objects, tid, a, b);
      assert Delivered(last, tid, a, b) && Holds(objects, tid, last);
      GoReadsFile(last.entries);
      var rows := RowsOf(tid, segments);
      assert rows[..|rows| - 1] == RowsOf(tid, init);
    }
  }

  /**
   End to end: when all of a run's segments were uploaded, registered and fit the scanner, a
   window overlapping all of them gives every stack exactly its flushed samples modulo 2^64;
   when nothing is left in memory these are all samples ever merged.
   */
  lemma WindowConserves(
      segments: seq<Segment>, stacks: Stacks, merged: seq<Entry>, rows: seq<Row>, objects: map<string, string>,
      tid: string, a: int, b: int, k: string)
    requires AllWritable(segments) && InStore(objects, tid, segments) && Conserved(stacks, segments, merged)
    requires forall i :: 0 <= i < |segments| ==> Delivered(segments[i], tid, a, b)
    requires Selected(rows, tid, a, b) == RowsOf(tid, segments)
    ensures var answer := AddAll(map[], WindowEntries(Selected(rows, tid, a, b), objects));
            && Get(answer, k) == Total(Flushed(segments), k) % U64
            && (k in answer <==> Mentions(Flushed(segments), k))
            && (k !in stacks ==>
                  Get(answer, k) == Total(merged, k) % U64 && (k in answer <==> Mentions(merged, k)))
  {
    hide AllWritable, InStore, Delivered, AddAll, Total, Flushed, Mentions, Selected, WindowEntries;
    RunIsRead(segments, objects, tid, a, b);
    AddAllMeaning(map[], Flushed(segments), k);
    assert Balanced(stacks, segments, merged, k);
  }

  lemma {:induction false} SelectedForeign(rows: seq<Row>, tid: string, a: int, b: int)
    requires forall i :: 0 <= i < |rows| ==> rows[i].tid != tid
    ensures Selected(rows, tid, a, b) == []
  {
    if rows != [] { SelectedForeign(rows[..|rows| - 1], tid, a, b); }
  }

  /** What the query returns, as a listing, after a fully delivered run. */
  lemma QueryAnswers(
      segments: seq<Segment>, merged: seq<Entry>, earlier: seq<Row>, objects: map<string, string>,
      tid: string, a: int, b: int, answer: Stacks)
    requires AllWritable(segments) && InStore(objects, tid, segments) && Conserved(map[], segments, merged)
    requires forall i :: 0 <= i < |segments| ==> Delivered(segments[i], tid, a, b)
    requires forall i :: 0 <= i < |earlier| ==> earlier[i].tid != tid
    requires answer == AddAll(map[], WindowEntries(Selected(earlier + RowsOf(tid, segments), tid, a, b), objects))
    ensures Selected(earlier + RowsOf(tid, segments), tid, a, b) == RowsOf(tid, segments)
    ensures segments != [] ==> RowsOf(tid, segments) != []
    ensures forall k :: Get(answer, k) == Total(merged, k) % U64 && (k in answer <==> Mentions(merged, k))
    ensures answer == map[] ==> merged == []
  {
    hide AllWritable, InStore, Conserved, AddAll, Total, WindowEntries, Overlaps, AllFit;
    if segments != [] { assert Delivered(segments[|segments| - 1], tid, a, b); }
    SelectedForeign(earlier, tid, a, b);
    SelectedAppend(earlier, RowsOf(tid, segments), tid, a, b);
    RunIsRead(segments, objects, tid, a, b);
    var rows := earlier + RowsOf(tid, segments);
    assert Selected(rows, tid, a, b) == RowsOf(tid, segments);
    forall k ensures Get(answer, k) == Total(merged, k) % U64 && (k in answer <==> Mentions(merged, k)) {
      WindowConserves(segments, map[], merged, rows, objects, tid, a, b, k);
    }
    if merged != [] { assert Mentions(merged, merged[0].stack); }
  }
}
