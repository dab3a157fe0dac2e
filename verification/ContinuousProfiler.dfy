/** The continuous profiler and the apiserver endpoints it talks to, as the objects they are. */
module ContinuousProfiler {
  import opened Wrappers
  import opened FoldedText
  import opened Segments

  /** apiserver: object store, the `cos_key` column of the tasks, and the segment table. */
  class Api {
    var objects: map<string, string>
    var cosKeys: map<string, string>
    var rows: seq<Row>

    /**
     `UploadTaskFile` for the route parameter `param`.  `storage` says whether storage is configured,
     `attached` whether the request carries a file, `put` what became of the write to the store,
     `noted` whether the task row can be read and written.
     */
    method Upload(tid: string, param: string, content: string, storage: bool, attached: bool, put: Rpc, noted: bool)
      returns (code: int)
      modifies this`objects, this`cosKeys
      ensures code == if tid == [] || param == [] then 400 else if !storage then 503 else if !attached then 400
                      else if !put.Answered? then 500 else 200
      ensures objects == if code == 200 || (code == 500 && put.Unanswered?)
                         then old(objects)[StoredKey(tid, param) := content] else old(objects)
      ensures cosKeys == if code == 200 && noted && tid in old(cosKeys) && old(cosKeys)[tid] == []
                         then old(cosKeys)[tid := StoredKey(tid, param)] else old(cosKeys)
    {
      if tid == [] || param == [] { return 400; }
      var name := param;
      if name[0] == '/' { name := name[1..]; }
      if !storage { return 503; }
      if !attached { return 400; }
      var key := tid + ['/'] + name;
      if !put.NotDone? { objects := objects[key := content]; }
      if !put.Answered? { return 500; }
      if noted && tid in cosKeys && cosKeys[tid] == [] { cosKeys := cosKeys[tid := key]; }
      return 200;
    }

    /** `CreateSegment`; `bound` says whether the request body can be read, `insert` what became of the insertion. */
    method CreateSegment(row: Row, bound: bool, insert: Rpc) returns (code: int)
      modifies this`rows
      ensures code == if !bound then 400 else if !insert.Answered? then 500 else 200
      ensures rows == if bound && !insert.NotDone? then old(rows) + [row] else old(rows)
    {
      if !bound { return 400; }
      if !insert.NotDone? { rows := rows + [row]; }
      return if insert.Answered? then 200 else 500;
    }

    /**
     `GetProfileWindow`.  `reachable` holds the objects the store hands out; with no storage
     configured there is none.  The body lists the merged map in some order.
     */
    method GetProfileWindow(tid: string, a: int, b: int, storage: bool, reachable: set<string>)
      returns (code: int, body: string)
      ensures var found := Selected(rows, tid, a, b);
              var readable := map k | k in objects && k in reachable :: objects[k];
              var merged := AddAll(map[], WindowEntries(found, readable));
              && code == (if a == 0 || b == 0 then 400 else if found == [] then 404 else if !storage then 503
                          else if merged == map[] then 404 else 200)
              && (code == 200 ==> Prints(body, merged))
    {
      body := [];
      if a == 0 || b == 0 { return 400, body; }
      var found := Selected(rows, tid, a, b);
      if found == [] { return 404, body; }
      if !storage { return 503, body; }
      ghost var readable := map k | k in objects && k in reachable :: objects[k];
      var merged: Stacks := map[];
      for i := 0 to |found|
        invariant merged == AddAll(map[], WindowEntries(found[..i], readable))
      {
        var key := found[i].key;
        ghost var before := WindowEntries(found[..i], readable);
        assert found[..i + 1][..i] == found[..i];
        if key in objects && key in reachable {
          AddAllAppend(map[], before, FileEntries(objects[key]));
          merged := MergeWindow(merged, Scanned(Lines(objects[key])));
        }
      }
      assert found[..|found|] == found;
      if merged == map[] { return 404, body; }
      body := Print(merged);
      code := 200;
    }

    /** The line loop of the window query. */
    method MergeWindow(merged: Stacks, lines: seq<string>) returns (r: Stacks)
      ensures r == AddAll(merged, GoEntries(lines))
    {
      hide GoCount, GoEntries, AddAll, LastSpace;
      r := merged;
      MergeNothing(merged);
      for i := 0 to |lines|
        invariant r == AddAll(merged, GoEntries(lines[..i]))
      {
        GoTurn(merged, lines, i);
        var at := LastSpace(lines[i]);
        if lines[i] == [] || at < 0 { continue; }
        var count := GoCount(lines[i][at + 1..]);
        if count.None? { continue; }
        r := r[lines[i][..at] := (Get(r, lines[i][..at]) + count.value) % U64];
      }
      assert lines[..|lines|] == lines;
    }
  }

  /** A file a burst left behind; `present` says whether it exists. */
  datatype BurstFile = BurstFile(name: string, present: bool, content: string)

  /**
   What the outside world does during one flush: the clock, opening the file, how many characters reach
   the disk if not all do, the two requests.
   */
  datatype FlushEnv = FlushEnv(now: int, opens: bool, kept: Option<nat>, upload: Rpc, register: Rpc)

  /** One turn of the recording loop: the burst, the clock after it, and the flush if one is due. */
  datatype Round = Round(ok: bool, files: seq<BurstFile>, now: int, flush: FlushEnv)

  predicate NamesCollapsed(name: string) {
    if |name| < 9 then false else name[..9] == "collapsed" || NamesCollapsed(name[1..])
  }

  /** What a burst's files contribute. */
  function FilesEntries(files: seq<BurstFile>): seq<Entry> {
    if files == [] then []
    else
      var last, init := files[|files| - 1], FilesEntries(files[..|files| - 1]);
      if NamesCollapsed(last.name) && last.present then init + CppEntries(Lines(last.content)) else init
  }

  lemma EntriesMore(a: seq<Entry>, b: seq<Entry>, c: seq<Entry>)
    ensures a + b + c == a + (b + c)
  {
  }

  lemma FilesTurn(files: seq<BurstFile>, n: nat)
    requires n < |files|
    ensures var before, f := FilesEntries(files[..n]), files[n];
            FilesEntries(files[..n + 1])
              == if NamesCollapsed(f.name) && f.present then before + CppEntries(Lines(f.content)) else before
  {
    assert files[..n + 1][..n] == files[..n];
  }

  /** What all bursts contribute; a failed burst contributes nothing. */
  function BurstEntries(rounds: seq<Round>): seq<Entry> {
    if rounds == [] then []
    else
      var last, init := rounds[|rounds| - 1], BurstEntries(rounds[..|rounds| - 1]);
      if last.ok then init + FilesEntries(last.files) else init
  }

  predicate NoLineFeeds(m: Stacks) {
    forall k :: k in m ==> '\n' !in k
  }

  lemma {:induction false} MergeOk(m: Stacks, lines: seq<string>)
    requires Bounded(m) && NoLineFeeds(m) && forall i :: 0 <= i < |lines| ==> '\n' !in lines[i]
    ensures Bounded(AddAll(m, CppEntries(lines))) && NoLineFeeds(AddAll(m, CppEntries(lines)))
  {
    if lines != [] {
      hide CppEntries, CppEntry, AddAll, Bounded, NoLineFeeds;
      var n := |lines| - 1;
      MergeOk(m, lines[..n]);
      CppTurn(m, lines, n);
      assert lines[..n + 1] == lines;
      if CppEntry(lines[n]).Some? { AddOk(AddAll(m, CppEntries(lines[..n])), lines[n]); }
    }
  }

  lemma AddOk(m: Stacks, line: string)
    requires Bounded(m) && NoLineFeeds(m) && '\n' !in line && CppEntry(line).Some?
    ensures Bounded(Add(m, CppEntry(line).value)) && NoLineFeeds(Add(m, CppEntry(line).value))
  {
    hide CppCount, LastSpace;
  }

  lemma ListsWritable(es: seq<Entry>, m: Stacks)
    requires Lists(es, m) && Bounded(m) && NoLineFeeds(m)
    ensures Writable(es)
  {
  }

  class Profiler {
    const tid: string
    const dir: string
    const api: Api
    var stacks: Stacks
    var segmentStart: int
    var flushedFiles: seq<string>
    var disk: map<string, string>
    ghost var merged: seq<Entry>      // every sample merged so far
    ghost var segments: seq<Segment>  // every file written so far
    ghost var earlier: seq<Row>       // rows registered before this run

    /** Memory and files account for every merged sample, and every file is where it was put. */
    ghost predicate Valid()
      reads this`stacks, this`merged, this`segments, this`disk, this`earlier, api
    {
      && Bounded(stacks) && NoLineFeeds(stacks)
      && Conserved(stacks, segments, merged)
      && AllWritable(segments)
      && OnDisk(disk, dir, segments)
      && InStore(api.objects, tid, segments)
      && api.rows == earlier + RowsOf(tid, segments)
    }

    /** `record` before its loop; `now` is the clock. */
    constructor (tid: string, dir: string, api: Api, disk: map<string, string>, now: int)
      ensures Valid() && Timeline(segments, segmentStart)
      ensures stacks == map[] && merged == [] && segments == [] && segmentStart == now && earlier == api.rows
      ensures this.api == api && this.tid == tid && this.dir == dir
    {
      this.tid, this.dir, this.api, this.disk := tid, dir, api, disk;
      stacks, segmentStart, flushedFiles := map[], now, [];
      merged, segments, earlier := [], [], api.rows;
    }

    /** `merge_collapsed` on the content of a file. */
    method MergeCollapsed(content: string)
      requires Valid()
      modifies this`stacks, this`merged
      ensures Valid()
      ensures merged == old(merged) + CppEntries(Lines(content))
    {
      hide Conserved, AllWritable, OnDisk, InStore, Bounded, NoLineFeeds, RowsOf, Lines;
      var lines := Lines(content);
      MergeOk(stacks, lines);
      MergeConserves(stacks, segments, merged, CppEntries(lines));
      stacks := MergeLines(stacks, lines);
      merged := merged + CppEntries(lines);
    }

    /**
     `flush_segment`, followed for the record by the start of the next segment.  The file is
     written and memory cleared even when the upload or the registration then fails.
     */
    method FlushSegment(env: FlushEnv, ghost next: int) returns (ok: bool, ghost added: Segment)
      requires Valid() && Timeline(segments, segmentStart) && next >= segmentStart + SEGMENT_SECONDS
      modifies this`stacks, this`flushedFiles, this`disk, this`segments, api
      ensures Valid() && Timeline(segments, next) && merged == old(merged)
      ensures !env.opens ==> stacks == old(stacks) && segments == old(segments)
      ensures added == Segment(segmentStart, env.now, next, added.entries, env.kept, Reached(tid, env.upload), env.register)
      ensures env.opens ==> stacks == map[] && segments == old(segments) + [added] && Lists(added.entries, old(stacks))
      ensures ok == (tid != [] && env.opens && env.upload.Answered? && env.register.Answered?)
      ensures flushedFiles == if ok then old(flushedFiles) + [RelativeFile(segmentStart)] else old(flushedFiles)
    {
      hide Conserved, Timeline, AllWritable, OnDisk, InStore, Bounded, NoLineFeeds, RowsOf, ListsBut, Writable;
      hide FileText, RelativeFile, RelativePath, StoredKey, SegmentPath;
      ok := false;
      added := Segment(segmentStart, env.now, next, [], env.kept, Reached(tid, env.upload), env.register);
      if !env.opens {
        TimelineLater(segments, segmentStart, next);
        return;
      }
      var text := Print(stacks);
      ghost var es :| Lists(es, stacks) && text == FileText(es);
      added := added.(entries := es);
      if env.kept.Some? && env.kept.value < |text| { text := text[..env.kept.value]; }
      FlushLemmas(stacks, segments, merged, disk, api.objects, tid, dir, segmentStart, added);
      disk := disk[SegmentPath(dir, segmentStart) := text];
      segments := segments + [added];
      stacks := map[];
      var sent := Send(text, env);
      if !sent { return; }
      flushedFiles := flushedFiles + [RelativeFile(segmentStart)];
      ok := true;
    }

    /** `upload_segment` and `register_segment` for the file just written. */
    method Send(text: string, env: FlushEnv) returns (ok: bool)
      modifies api
      ensures var upload := Reached(tid, env.upload);
              && api.objects == (if upload.NotDone? then old(api.objects)
                                 else old(api.objects)[SegmentKey(tid, segmentStart) := text])
              && api.rows == (if upload.Answered? && !env.register.NotDone?
                              then old(api.rows) + [Row(tid, segmentStart, env.now, SegmentKey(tid, segmentStart))]
                              else old(api.rows))
              && ok == (upload.Answered? && env.register.Answered?)
    {
      hide RelativeFile, RelativePath, StoredKey, SegmentPath;
      KeysAgree(tid, dir, segmentStart);
      var relative := RelativePath(SegmentPath(dir, segmentStart));
      var code := 0;
      if !env.upload.NotDone? { code := api.Upload(tid, ['/'] + relative, text, true, true, Answered, true); }
      if !env.upload.Answered? || code != 200 { return false; }
      if !env.register.NotDone? {
        code := api.CreateSegment(Row(tid, segmentStart, env.now, tid + ['/'] + relative), true, Answered);
      }
      return env.register.Answered?;
    }

    /** The loop over a burst's files. */
    method MergeFiles(files: seq<BurstFile>)
      requires Valid()
      modifies this`stacks, this`merged
      ensures Valid() && merged == old(merged) + FilesEntries(files)
    {
      hide Valid, NamesCollapsed, CppEntries, Lines;
      ghost var entries: seq<Entry> := [];
      for i := 0 to |files|
        invariant Valid() && merged == old(merged) + entries && entries == FilesEntries(files[..i])
      {
        hide FilesEntries;
        FilesTurn(files, i);
        if NamesCollapsed(files[i].name) && files[i].present {
          MergeCollapsed(files[i].content);
          ghost var more := CppEntries(Lines(files[i].content));
          EntriesMore(old(merged), entries, more);
          entries := entries + more;
        }
      }
      assert files[..|files|] == files;
    }

    /** One turn of the loop of `record`; `added` is the segment file it wrote, if it did. */
    method RunRound(round: Round) returns (ghost added: Option<Segment>)
      requires Valid() && Timeline(segments, segmentStart)
      modifies this`stacks, this`merged, this`flushedFiles, this`disk, this`segments, this`segmentStart, api
      ensures Valid() && Timeline(segments, segmentStart)
      ensures merged == if round.ok then old(merged) + FilesEntries(round.files) else old(merged)
      ensures var due := round.now - old(segmentStart) >= SEGMENT_SECONDS;
              && (added.Some? <==> due && round.flush.opens)
              && segmentStart == if due then round.now else old(segmentStart)
      ensures segments == if added.Some? then old(segments) + [added.value] else old(segments)
      ensures added.Some? ==> added.value.start == old(segmentStart) && added.value.end == round.flush.now
      ensures added.Some? ==> added.value.kept == round.flush.kept
      ensures added.Some? ==> added.value.upload == Reached(tid, round.flush.upload) && added.value.register == round.flush.register
    {
      hide Valid, Timeline;
      added := None;
      if round.ok { MergeFiles(round.files); }
      if round.now - segmentStart >= SEGMENT_SECONDS {
        var ok, segment := FlushSegment(round.flush, round.now);
        segmentStart := round.now;
        if round.flush.opens { added := Some(segment); }
      }
    }

    /**
     The loop of `record` until it is stopped after `rounds`, and the final flush: whatever the outside
     world does, memory and what was written to files account for every sample of every burst.
     */
    method Record(rounds: seq<Round>, stop: FlushEnv, ghost a: int, ghost b: int)
      requires Valid() && stacks == map[] && merged == [] && segments == []
      modifies this`stacks, this`merged, this`flushedFiles, this`disk, this`segments, this`segmentStart, api
      ensures Valid() && merged == BurstEntries(rounds)
      ensures Timeline(segments, segmentStart + SEGMENT_SECONDS)
      ensures stop.opens ==> stacks == map[]
      ensures AllOpen(rounds) ==> Since(segments, segmentStart, old(segmentStart))
      ensures AllOpen(rounds) && ClockRuns(rounds) ==> Gapless(segments)
      ensures AllAnswered(rounds) && Answers(stop) && tid != [] ==> AllRegistered(segments) && AllWhole(segments)
      ensures InWindow(old(segmentStart), rounds, stop, a, b) ==> AllOverlap(segments, a, b)
    {
      hide Valid, BurstEntries, Timeline, Since, Gapless, StartedInTime, AllRegistered, AllOverlap, AllWhole;
      NothingYet(segmentStart);
      for i := 0 to |rounds|
        invariant Valid() && merged == BurstEntries(rounds[..i])
        invariant Timeline(segments, segmentStart)
        invariant AllOpen(rounds) ==> Since(segments, segmentStart, old(segmentStart))
        invariant AllOpen(rounds) && ClockRuns(rounds) ==> Gapless(segments) && StartedInTime(segments, segmentStart)
        invariant AllAnswered(rounds) && tid != [] ==> AllRegistered(segments) && AllWhole(segments)
        invariant InWindow(old(segmentStart), rounds, stop, a, b) ==> segmentStart < b && AllOverlap(segments, a, b)
      {
        BurstTurn(rounds, i);
        GrowAny(segments, segmentStart, old(segmentStart), a, b);
        var added := RunRound(rounds[i]);
      }
      assert rounds[..|rounds|] == rounds;
      GrowAny(segments, segmentStart, old(segmentStart), a, b);
      if stacks != map[] {
        var ok, added := FlushSegment(stop, segmentStart + SEGMENT_SECONDS);
      } else {
        TimelineLater(segments, segmentStart, segmentStart + SEGMENT_SECONDS);
      }
    }
  }

  /** The first segment, or the running one if there is none, started at `first`. */
  predicate Since(segments: seq<Segment>, start: int, first: int) {
    if segments == [] then start == first else segments[0].start == first
  }

  /** Every file was written in full. */
  predicate AllWhole(segments: seq<Segment>) {
    forall i :: 0 <= i < |segments| ==> segments[i].kept.None?
  }

  /** Every segment overlaps the window. */
  predicate AllOverlap(segments: seq<Segment>, a: int, b: int) {
    forall i :: 0 <= i < |segments| ==> segments[i].start < b && segments[i].end > a
  }

  /** The window reaches past every clock reading that can start a segment and begins before any that can end one. */
  predicate InWindow(start: int, rounds: seq<Round>, stop: FlushEnv, a: int, b: int) {
    && start < b && a < stop.now
    && forall i :: 0 <= i < |rounds| ==> rounds[i].now < b && a < rounds[i].flush.now
  }

  /** A request for the empty task id is refused by the server. */
  function Reached(tid: string, upload: Rpc): Rpc {
    if tid == [] then NotDone else upload
  }

  /** How one more segment extends what is known about the earlier ones. */
  lemma GrowAny(segments: seq<Segment>, start: int, first: int, a: int, b: int)
    ensures forall added: Segment, next: int {:trigger Since(segments + [added], next, first)} ::
              Since(segments, start, first) && added.start == start ==> Since(segments + [added], next, first)
    ensures forall added: Segment {:trigger Gapless(segments + [added])} ::
              Gapless(segments) && StartedInTime(segments, start) && added.start == start ==> Gapless(segments + [added])
    ensures forall added: Segment, next: int {:trigger StartedInTime(segments + [added], next)} ::
              next <= added.end ==> StartedInTime(segments + [added], next)
    ensures forall added: Segment {:trigger AllRegistered(segments + [added])} ::
              AllRegistered(segments) && added.Registered() ==> AllRegistered(segments + [added])
    ensures forall added: Segment {:trigger AllWhole(segments + [added])} ::
              AllWhole(segments) && added.kept.None? ==> AllWhole(segments + [added])
    ensures forall added: Segment {:trigger AllOverlap(segments + [added], a, b)} ::
              AllOverlap(segments, a, b) && added.start < b && added.end > a ==> AllOverlap(segments + [added], a, b)
  {
  }

  predicate Answers(env: FlushEnv) {
    env.opens && env.kept.None? && env.upload.Answered? && env.register.Answered?
  }

  predicate AllOpen(rounds: seq<Round>) {
    forall i :: 0 <= i < |rounds| ==> rounds[i].flush.opens
  }

  predicate AllAnswered(rounds: seq<Round>) {
    forall i :: 0 <= i < |rounds| ==> Answers(rounds[i].flush)
  }

  /** A flush reads the clock after the loop did. */
  predicate ClockRuns(rounds: seq<Round>) {
    forall i :: 0 <= i < |rounds| ==> rounds[i].now <= rounds[i].flush.now
  }

  /** The running segment started before the last one ended. */
  predicate StartedInTime(segments: seq<Segment>, start: int) {
    segments != [] ==> start <= segments[|segments| - 1].end
  }

  lemma NothingYet(start: int)
    ensures Timeline([], start) && BurstEntries([]) == [] && Since([], start, start)
    ensures Gapless([]) && StartedInTime([], start) && AllRegistered([])
    ensures AllWhole([]) && forall a, b :: AllOverlap([], a, b)
  {
  }

  lemma BurstTurn(rounds: seq<Round>, i: nat)
    requires i < |rounds|
    ensures BurstEntries(rounds[..i + 1])
         == if rounds[i].ok then BurstEntries(rounds[..i]) + FilesEntries(rounds[i].files) else BurstEntries(rounds[..i])
  {
    assert rounds[..i + 1][..i] == rounds[..i];
  }

  /** The line loop of `merge_collapsed`. */
  method MergeLines(m: Stacks, lines: seq<string>) returns (r: Stacks)
    ensures r == AddAll(m, CppEntries(lines))
  {
    hide CppCount, CppEntries, AddAll, LastSpace;
    r := m;
    MergeNothing(m);
    for i := 0 to |lines|
      invariant r == AddAll(m, CppEntries(lines[..i]))
    {
      CppTurn(m, lines, i);
      var at := LastSpace(lines[i]);
      if lines[i] == [] || at < 0 { continue; }
      var count := CppCount(lines[i][at + 1..]);
      if count.None? { continue; }
      r := r[lines[i][..at] := (Get(r, lines[i][..at]) + count.value) % U64];
    }
    assert lines[..|lines|] == lines;
  }

  lemma MergeNothing(m: Stacks)
    ensures AddAll(m, CppEntries([])) == m && AddAll(m, GoEntries([])) == m
  {
  }

  lemma TimelineLater(segments: seq<Segment>, start: int, later: int)
    requires Timeline(segments, start) && start <= later
    ensures Timeline(segments, later)
  {
  }

  /** Everything a write keeps. */
  lemma FlushLemmas(stacks: Stacks, segments: seq<Segment>, merged: seq<Entry>, disk: map<string, string>,
                    objects: map<string, string>, tid: string, dir: string, start: int, added: Segment)
    requires Bounded(stacks) && NoLineFeeds(stacks) && Lists(added.entries, stacks)
    requires Conserved(stacks, segments, merged) && Timeline(segments, start) && AllWritable(segments)
    requires OnDisk(disk, dir, segments) && InStore(objects, tid, segments)
    requires added.start == start && added.next >= start + SEGMENT_SECONDS
    ensures Bounded(map[]) && NoLineFeeds(map[])
    ensures Conserved(map[], segments + [added], merged) && Timeline(segments + [added], added.next)
    ensures AllWritable(segments + [added])
    ensures OnDisk(disk[SegmentPath(dir, start) := added.Text()], dir, segments + [added])
    ensures InStore(if added.Stored() then objects[SegmentKey(tid, start) := added.Text()] else objects,
                    tid, segments + [added])
    ensures RowsOf(tid, segments + [added])
         == if added.Registered() then RowsOf(tid, segments) + [RowOf(tid, added)] else RowsOf(tid, segments)
  {
    hide Conserved, Timeline, OnDisk, InStore, ListsBut;
    ListsWritable(added.entries, stacks);
    FlushConserves(stacks, segments, merged, added);
    TimelineGrows(segments, start, added);
    DiskGrows(disk, dir, segments, added, start);
    StoreGrows(objects, tid, segments, added, start);
    RowsGrow(tid, segments, added);
  }

  /** The text lists exactly the stacks of the entries, each with its total modulo 2^64. */
  ghost predicate Accounts(text: string, es: seq<Entry>) {
    exists m :: Prints(text, m) && forall k :: Get(m, k) == Total(es, k) % U64 && (k in m <==> Mentions(es, k))
  }

  /**
   A whole run followed by a window query.  Whatever happens, the run adds the rows of its registered
   segments, whose files hold every sample not left in memory, and the query lists what it can read.
   When every request is answered, every file opens and is written in full, the window spans the run,
   no stack is too long for the scanner and the task had no segments before, the query answers every
   stack with its samples over all bursts modulo 2^64.
   */
  method RecordAndQuery(tid: string, dir: string, api: Api, now: int, rounds: seq<Round>, stop: FlushEnv, a: int, b: int)
    returns (code: int, body: string, ghost segments: seq<Segment>)
    modifies api
    ensures api.rows == old(api.rows) + RowsOf(tid, segments)
    ensures stop.opens ==> Conserved(map[], segments, BurstEntries(rounds))
    ensures code == 200 ==> Prints(body, AddAll(map[], WindowEntries(Selected(api.rows, tid, a, b), api.objects)))
    ensures
      && tid != [] && AllAnswered(rounds) && Answers(stop)
      && (forall i :: 0 <= i < |old(api.rows)| ==> old(api.rows)[i].tid != tid)
      && a != 0 && b != 0 && InWindow(now, rounds, stop, a, b)
      && (forall i :: 0 <= i < |BurstEntries(rounds)| ==> Short(BurstEntries(rounds)[i].stack))
      ==>
      if BurstEntries(rounds) == [] then code == 404 else code == 200 && Accounts(body, BurstEntries(rounds))
  {
    hide Conserved, AllWritable, OnDisk, InStore, RowsOf, ListsBut, Delivered, BurstEntries, AllOverlap, Short;
    hide Total, AddAll, WindowEntries, Selected, FileText, Timeline, Since, Gapless, AllRegistered, AllWhole, Mentions;
    var profiler := new Profiler(tid, dir, api, map[], now);
    profiler.Record(rounds, stop, a, b);
    segments := profiler.segments;
    code, body := api.GetProfileWindow(tid, a, b, true, api.objects.Keys);
    ghost var answer := AddAll(map[], WindowEntries(Selected(api.rows, tid, a, b), api.objects));
    assert (map k | k in api.objects && k in api.objects.Keys :: api.objects[k]) == api.objects;
    if tid != [] && AllAnswered(rounds) && Answers(stop) && InWindow(now, rounds, stop, a, b)
       && (forall i :: 0 <= i < |old(api.rows)| ==> old(api.rows)[i].tid != tid)
       && forall i :: 0 <= i < |profiler.merged| ==> Short(profiler.merged[i].stack) {
      AllDelivered(segments, profiler.merged, tid, a, b);
      QueryAnswers(segments, profiler.merged, profiler.earlier, api.objects, tid, a, b, answer);
      NothingMerged(segments, profiler.merged, answer);
    }
  }

  lemma AllDelivered(segments: seq<Segment>, merged: seq<Entry>, tid: string, a: int, b: int)
    requires Conserved(map[], segments, merged) && AllWritable(segments) && AllRegistered(segments) && AllWhole(segments)
    requires AllOverlap(segments, a, b)
    requires forall i :: 0 <= i < |merged| ==> Short(merged[i].stack)
    ensures forall i :: 0 <= i < |segments| ==> Delivered(segments[i], tid, a, b)
  {
    hide Conserved, AllWritable, AllFit, Short;
    forall i | 0 <= i < |segments| ensures Delivered(segments[i], tid, a, b) {
      ShortRunFits(map[], segments, merged, i);
    }
  }

  /** A run without samples leaves nothing to answer, a run with samples leaves a segment. */
  lemma NothingMerged(segments: seq<Segment>, merged: seq<Entry>, answer: Stacks)
    requires Conserved(map[], segments, merged)
    requires forall k :: k in answer <==> Mentions(merged, k)
    ensures merged == [] ==> answer == map[]
    ensures merged != [] ==> segments != [] && answer != map[]
  {
    hide Total;
    if merged != [] {
      var k := merged[0].stack;
      assert Mentions(merged, k);
      assert Balanced(map[], segments, merged, k);
    }
  }
}
