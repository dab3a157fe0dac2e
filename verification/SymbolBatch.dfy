/**
 Batched symbol resolution and folding in the eBPF loader: all user frames are resolved by a few
 addr2line runs, yet every frame gets the name it would get alone, and no sample is lost.
 */
module SymbolBatch {
  import opened Wrappers
  import opened FoldedText
  import opened MapsCache
  import opened Separated

  /** A binary and an offset in it. */
  type Site = (string, nat)

  /** A deterministic addr2line: the function line and the location line it prints for a site. */
  datatype Tool = Tool(name: Site -> string, place: Site -> string)

  const CHUNK := 512

  /** `fgets` into a buffer of 512 reads at most this many characters. */
  const LINE_MAX := 511

  const LF: string := ['\n']

  // ----- Reading the tool's output -----

  /** Length of the first line, its line feed included. */
  function LineEnd(text: string): (n: nat)
    ensures n <= |text|
  {
    if text == [] then 0 else if text[0] == '\n' then 1 else 1 + LineEnd(text[1..])
  }

  function Fgets(text: string): (string, string) {
    var n := if LineEnd(text) <= LINE_MAX then LineEnd(text) else LINE_MAX;
    (text[..n], text[n..])
  }

  function Chomp(s: string): string {
    if s != [] && (s[|s| - 1] == '\n' || s[|s| - 1] == '\r') then Chomp(s[..|s| - 1]) else s
  }

  /** What a tool prints for a site are lines: they hold no line feed. */
  ghost predicate PrintsLines(tool: Tool) {
    forall s: Site :: '\n' !in tool.name(s) && '\n' !in tool.place(s)
  }

  predicate FitsLine(line: string) {
    '\n' !in line && |line| < LINE_MAX
  }

  /** Both lines of a site fit the buffer. */
  predicate FitsSite(tool: Tool, s: Site) {
    FitsLine(tool.name(s)) && FitsLine(tool.place(s))
  }

  ghost predicate Fitting(tool: Tool) {
    forall s: Site :: FitsSite(tool, s)
  }

  function Output(tool: Tool, path: string, offsets: seq<nat>): string {
    if offsets == [] then []
    else tool.name((path, offsets[0])) + LF + tool.place((path, offsets[0])) + LF + Output(tool, path, offsets[1..])
  }

  lemma {:induction false} LineEndOf(line: string, rest: string)
    requires '\n' !in line
    ensures LineEnd(line + LF + rest) == |line| + 1
  {
    if line != [] {
      assert line[0] in line;
      LineEndOf(line[1..], rest);
      assert (line + LF + rest)[1..] == line[1..] + LF + rest;
    }
  }

  lemma FgetsLine(line: string, rest: string)
    requires FitsLine(line)
    ensures Fgets(line + LF + rest) == (line + LF, rest)
  {
    LineEndOf(line, rest);
    var text := line + LF + rest;
    assert text[..|line| + 1] == line + LF && text[|line| + 1..] == rest;
  }

  /** The position after one line read, whatever its length. */
  lemma FgetsRest(line: string, rest: string)
    requires '\n' !in line
    ensures var text := line + LF + rest; Fgets(text).1 == text[if |line| < LINE_MAX then |line| + 1 else LINE_MAX..]
  {
    LineEndOf(line, rest);
  }

  /** Reading two lines leaves the reader at the output of the next address if and only if both lines fit the buffer. */
  lemma InStepExactly(tool: Tool, path: string, offsets: seq<nat>)
    requires PrintsLines(tool) && offsets != []
    ensures Fgets(Fgets(Output(tool, path, offsets)).1).1 == Output(tool, path, offsets[1..])
       <==> FitsSite(tool, (path, offsets[0]))
  {
    hide Fgets;
    var site := (path, offsets[0]);
    var name, place, tail := tool.name(site), tool.place(site), Output(tool, path, offsets[1..]);
    assert '\n' !in name && '\n' !in place;
    assert Output(tool, path, offsets) == name + LF + (place + LF + tail);
    FgetsRest(name, place + LF + tail);
    if |name| < LINE_MAX {
      assert (name + LF + (place + LF + tail))[|name| + 1..] == place + LF + tail;
      FgetsRest(place, tail);
      assert (place + LF + tail)[|place| + 1..] == tail;
    } else {
      var more := name[LINE_MAX..];
      assert (name + LF + (place + LF + tail))[LINE_MAX..] == more + LF + (place + LF + tail);
      FgetsRest(more, place + LF + tail);
    }
  }

  /** One too long: the rest of a location of 511 characters or more is taken for the name of the next address. */
  lemma LongPlaceShiftsNames(tool: Tool, path: string, first: nat, second: nat, head: string, rest: string)
    requires FitsLine(tool.name((path, first))) && tool.place((path, first)) == head + rest
    requires |head| == LINE_MAX && '\n' !in head && FitsLine(rest)
    ensures var text := Fgets(Fgets(Output(tool, path, [first, second])).1).1; Fgets(text).0 == rest + LF
  {
    hide Fgets;
    var name, tail := tool.name((path, first)), Output(tool, path, [second]);
    assert [first, second][1..] == [second];
    assert Output(tool, path, [first, second]) == name + LF + (head + rest + LF + tail);
    FgetsLine(name, head + rest + LF + tail);
    FgetsRest(head + rest, tail);
    assert (head + rest + LF + tail)[LINE_MAX..] == rest + LF + tail;
    FgetsLine(rest, tail);
  }

  // ----- Names -----

  function Digit(d: nat): char
    requires d < 16
  {
    if d < 10 then ('0' as int + d) as char else ('a' as int + d - 10) as char
  }

  function Hex(n: nat): string {
    if n < 16 then [Digit(n)] else Hex(n / 16) + [Digit(n % 16)]
  }

  /** The part of a path after its last slash. */
  function Basename(path: string): string {
    if path == [] then [] else if path[|path| - 1] == '/' then [] else Basename(path[..|path| - 1]) + [path[|path| - 1]]
  }

  /** `snprintf` into 128 bytes. */
  function Fallback(site: Site): string {
    var s := Basename(site.0) + ['+', '0', 'x'] + Hex(site.1);
    if |s| < 128 then s else s[..127]
  }

  function Chosen(raw: string, site: Site): string {
    var f := Chomp(raw);
    if f != [] && f != ['?', '?'] && f != ['?'] then f else Fallback(site)
  }

  /** The name a site gets when it is resolved alone. */
  function NameOf(tool: Tool, site: Site): string {
    Chosen(tool.name(site), site)
  }

  lemma ChompLine(line: string)
    ensures Chomp(line + LF) == Chomp(line)
  {
  }

  // ----- Batches -----

  type Names = map<Site, string>

  /**
   `r` is `before` with the sites of `path` at `offsets` added and nothing else changed.  They go under
   their fallback if the run did not work, and under their own names if it did and all lines fitted.
   */
  ghost predicate Extended(before: Names, r: Names, path: string, offsets: seq<nat>, tool: Tool, works: bool, fits: bool) {
    && (forall s :: s in r <==> s in before || (s.0 == path && s.1 in offsets))
    && (forall s :: s in r && s.0 == path && s.1 in offsets ==> Named(r[s], s, tool, works, fits))
    && (forall s :: s in r && !(s.0 == path && s.1 in offsets) ==> r[s] == before[s])
  }

  predicate Named(name: string, s: Site, tool: Tool, works: bool, fits: bool) {
    name != [] && (works && fits ==> name == NameOf(tool, s)) && (!works ==> name == Fallback(s))
  }

  ghost predicate AllFitBuffer(tool: Tool, path: string, offsets: seq<nat>) {
    forall i :: 0 <= i < |offsets| ==> FitsSite(tool, (path, offsets[i]))
  }

  /** One addr2line run; `works` is whether its pipe could be opened. */
  method ResolveChunk(tool: Tool, path: string, chunk: seq<nat>, before: Names, works: bool) returns (r: Names)
    ensures Extended(before, r, path, chunk, tool, works, AllFitBuffer(tool, path, chunk))
  {
    hide Fgets, Chosen, NameOf, Fallback, Extended, FitsSite;
    r := before;
    var text := Output(tool, path, chunk);
    ghost var fits := AllFitBuffer(tool, path, chunk);
    assert chunk[0..] == chunk;
    NothingAdded(before, path, tool, works, fits);
    for i := 0 to |chunk|
      invariant Extended(before, r, path, chunk[..i], tool, works, fits)
      invariant works && fits ==> text == Output(tool, path, chunk[i..])
    {
      var site := (path, chunk[i]);
      assert chunk[..i + 1] == chunk[..i] + [chunk[i]] && chunk[i..][1..] == chunk[i + 1..];
      var name := Fallback(site);
      if works {
        if fits { ReadTwoLines(tool, path, chunk[i..]); }
        var (line, rest) := Fgets(text);
        text := Fgets(rest).1;
        name := Chosen(line, site);
        ChosenIsNamed(line, site);
      } else {
        FallbackIsNamed(site);
      }
      OneAdded(before, r, path, chunk[..i], chunk[i], name, tool, works, fits);
      r := r[site := name];
    }
    assert chunk[..|chunk|] == chunk;
  }

  lemma FallbackIsNamed(site: Site)
    ensures Fallback(site) != []
  {
  }

  lemma ChosenIsNamed(line: string, site: Site)
    ensures Chosen(line, site) != []
  {
    FallbackIsNamed(site);
  }

  lemma NothingAdded(before: Names, path: string, tool: Tool, works: bool, fits: bool)
    ensures Extended(before, before, path, [], tool, works, fits)
  {
  }

  lemma OneAdded(before: Names, r: Names, path: string, offsets: seq<nat>, offset: nat, name: string, tool: Tool,
                 works: bool, fits: bool)
    requires Extended(before, r, path, offsets, tool, works, fits) && Named(name, (path, offset), tool, works, fits)
    ensures Extended(before, r[(path, offset) := name], path, offsets + [offset], tool, works, fits)
  {
    hide Named;
  }

  lemma ReadTwoLines(tool: Tool, path: string, offsets: seq<nat>)
    requires offsets != [] && FitsSite(tool, (path, offsets[0]))
    ensures var (line, rest) := Fgets(Output(tool, path, offsets));
            && Chosen(line, (path, offsets[0])) == NameOf(tool, (path, offsets[0]))
            && Fgets(rest).1 == Output(tool, path, offsets[1..])
  {
    hide Fgets, Chomp;
    var site := (path, offsets[0]);
    var name, place, tail := tool.name(site), tool.place(site), Output(tool, path, offsets[1..]);
    assert Output(tool, path, offsets) == name + LF + (place + LF + tail);
    FgetsLine(name, place + LF + tail);
    FgetsLine(place, tail);
    ChompLine(name);
  }

  /**
   What the batch promises: exactly the sites asked for, each under some name.  If the lines of all of
   them fit, it is the site's own name or, where a pipe failed, its fallback.
   */
  ghost predicate Answers(r: Names, sites: set<Site>, tool: Tool, opens: (string, nat) -> bool) {
    && r.Keys == sites
    && (forall s :: s in r ==> r[s] != [])
    && (FitsAll(tool, sites) ==> forall s :: s in r ==> r[s] == NameOf(tool, s) || r[s] == Fallback(s))
    && (FitsAll(tool, sites) && AllOpen(opens) ==> forall s :: s in r ==> r[s] == NameOf(tool, s))
  }

  ghost predicate FitsAll(tool: Tool, sites: set<Site>) {
    forall s :: s in sites ==> FitsSite(tool, s)
  }

  ghost predicate AllOpen(opens: (string, nat) -> bool) {
    forall p, n :: opens(p, n)
  }

  function SitesOf(path: string, offsets: seq<nat>): set<Site> {
    set o | o in offsets :: (path, o)
  }

  lemma AnswersMore(before: Names, r: Names, sites: set<Site>, path: string, chunk: seq<nat>, tool: Tool,
                    opens: (string, nat) -> bool, n: nat)
    requires Answers(before, sites, tool, opens)
    requires Extended(before, r, path, chunk, tool, opens(path, n), AllFitBuffer(tool, path, chunk))
    ensures Answers(r, sites + SitesOf(path, chunk), tool, opens)
  {
    hide NameOf, Fallback, FitsSite;
    var all := sites + SitesOf(path, chunk);
    forall s ensures s in r <==> s in all {
      assert s in SitesOf(path, chunk) <==> s.0 == path && s.1 in chunk;
    }
    assert r.Keys == all;
    if FitsAll(tool, all) {
      assert FitsAll(tool, sites);
      forall i | 0 <= i < |chunk| ensures FitsSite(tool, (path, chunk[i])) {
        assert (path, chunk[i]) in all;
      }
    }
  }

  /** The chunks of one binary. */
  method ResolvePath(tool: Tool, path: string, offsets: seq<nat>, before: Names, opens: (string, nat) -> bool,
                     ghost sites: set<Site>)
    returns (r: Names)
    requires Answers(before, sites, tool, opens)
    ensures Answers(r, sites + SitesOf(path, offsets), tool, opens)
  {
    hide Answers, Extended;
    r := before;
    var start := 0;
    assert sites + SitesOf(path, offsets[..0]) == sites;
    while start < |offsets|
      invariant 0 <= start <= |offsets|
      invariant Answers(r, sites + SitesOf(path, offsets[..start]), tool, opens)
    {
      var end := if start + CHUNK < |offsets| then start + CHUNK else |offsets|;
      var next := ResolveChunk(tool, path, offsets[start..end], r, opens(path, start));
      AnswersMore(r, next, sites + SitesOf(path, offsets[..start]), path, offsets[start..end], tool, opens, start);
      SitesJoin(path, offsets, start, end, sites);
      r, start := next, end;
    }
    assert offsets[..|offsets|] == offsets;
  }

  lemma SitesJoin(path: string, offsets: seq<nat>, start: nat, end: nat, sites: set<Site>)
    requires start <= end <= |offsets|
    ensures sites + SitesOf(path, offsets[..start]) + SitesOf(path, offsets[start..end]) == sites + SitesOf(path, offsets[..end])
  {
  }

  type Groups = map<string, seq<nat>>

  function Members(groups: Groups, paths: set<string>): set<Site> {
    set p, o | p in groups && p in paths && o in groups[p] :: (p, o)
  }

  function Ask(sites: seq<Site>): set<Site> {
    set s | s in sites
  }

  method GroupByPath(sites: seq<Site>) returns (groups: Groups)
    ensures Members(groups, groups.Keys) == Ask(sites)
  {
    groups := map[];
    for i := 0 to |sites|
      invariant forall s: Site :: s.0 in groups && s.1 in groups[s.0] <==> s in sites[..i]
    {
      var (path, offset) := sites[i];
      assert sites[..i + 1] == sites[..i] + [(path, offset)];
      groups := groups[path := (if path in groups then groups[path] else []) + [offset]];
    }
    assert sites[..|sites|] == sites;
    assert forall s: Site :: s in Members(groups, groups.Keys) <==> s.0 in groups && s.1 in groups[s.0];
  }

  method BatchResolve(tool: Tool, sites: seq<Site>, opens: (string, nat) -> bool) returns (r: Names)
    ensures Answers(r, Ask(sites), tool, opens)
  {
    hide Answers, Members;
    var groups := GroupByPath(sites);
    r := map[];
    var rest := groups.Keys;
    NothingAsked(groups, tool, opens);
    while rest != {}
      invariant rest <= groups.Keys && Answers(r, Members(groups, groups.Keys - rest), tool, opens)
      decreases |rest|
    {
      var path :| path in rest;
      MembersMore(groups, groups.Keys - rest, path);
      r := ResolvePath(tool, path, groups[path], r, opens, Members(groups, groups.Keys - rest));
      assert groups.Keys - (rest - {path}) == groups.Keys - rest + {path};
      rest := rest - {path};
    }
    assert groups.Keys - rest == groups.Keys;
  }

  lemma NothingAsked(groups: Groups, tool: Tool, opens: (string, nat) -> bool)
    ensures Answers(map[], Members(groups, groups.Keys - groups.Keys), tool, opens)
  {
  }

  lemma MembersMore(groups: Groups, paths: set<string>, path: string)
    requires path in groups
    ensures Members(groups, paths + {path}) == Members(groups, paths) + SitesOf(path, groups[path])
  {
  }

  // ----- One frame -----

  /** The first region holding an address. */
  function RegionOf(regions: Regions, addr: nat): (r: Option<Region>)
    ensures r.Some? ==> r.value in regions && r.value.start <= addr < r.value.end
    ensures r.None? ==> forall i :: 0 <= i < |regions| ==> !(regions[i].start <= addr < regions[i].end)
  {
    if regions == [] then None
    else if regions[0].start <= addr < regions[0].end then Some(regions[0])
    else RegionOf(regions[1..], addr)
  }

  function SiteIn(region: Region, addr: nat): Site
    requires region.start <= addr
  {
    (region.path, (addr - region.start + region.offset) % U64)
  }

  function UnknownFrame(addr: nat): string {
    ['[', 'u', 'n', 'k', 'n', 'o', 'w', 'n', ']', ':', '0', 'x'] + Hex(addr)
  }

  /** The name of a frame resolved on its own. */
  function Direct(regions: Regions, addr: nat, tool: Tool): string {
    match RegionOf(regions, addr)
    case None => UnknownFrame(addr)
    case Some(region) => NameOf(tool, SiteIn(region, addr))
  }

  /** The name of a frame looked up in a batch. */
  function Looked(regions: Regions, addr: nat, names: Names): string {
    match RegionOf(regions, addr)
    case None => UnknownFrame(addr)
    case Some(region) =>
      var site := SiteIn(region, addr);
      if site in names then names[site] else Fallback(site)
  }

  method ResolveUserFrame(regions: Regions, addr: nat, names: Names) returns (name: string)
    ensures name == Looked(regions, addr, names)
  {
    hide Fallback;
    for i := 0 to |regions|
      invariant RegionOf(regions, addr) == RegionOf(regions[i..], addr)
    {
      assert regions[i..][1..] == regions[i + 1..];
      var m := regions[i];
      if m.start <= addr < m.end {
        var site := SiteIn(m, addr);
        if site in names { return names[site]; }
        return Fallback(site);
      }
    }
    return UnknownFrame(addr);
  }

  // ----- The folding phases of a poll -----

  datatype Key = Key(tgid: nat, kern: int, user: int)

  /** What phase 1 read: the keys with their counts, and the stacks by id. */
  datatype Snapshot = Snapshot(keys: seq<Key>, counts: map<Key, nat>, stacks: map<int, seq<nat>>)

  predicate Complete(snap: Snapshot) {
    forall i :: 0 <= i < |snap.keys| ==> snap.keys[i] in snap.counts
  }

  /** At most 64 addresses, up to the first zero. */
  function UpToZero(addrs: seq<nat>): seq<nat> {
    if addrs == [] || addrs[0] == 0 then [] else [addrs[0]] + UpToZero(addrs[1..])
  }

  function StackOf(stacks: map<int, seq<nat>>, id: int): Option<seq<nat>> {
    if id >= 0 && id in stacks then
      Some(UpToZero(if |stacks[id]| > 64 then stacks[id][..64] else stacks[id]))
    else None
  }

  /** Names of the frames, innermost first in the trace, outermost first in the text. */
  function Reversed(names: seq<string>): (r: seq<string>)
    ensures |r| == |names| && forall i :: 0 <= i < |r| ==> r[i] == names[|names| - 1 - i]
  {
    if names == [] then [] else [names[|names| - 1]] + Reversed(names[..|names| - 1])
  }

  function Append(text: string, frames: seq<string>): string
    decreases |frames|
  {
    if frames == [] then text
    else Append((if text == [] then text else text + [';']) + frames[0], frames[1..])
  }

  const UNKNOWN: string := ['[', 'u', 'n', 'k', 'n', 'o', 'w', 'n', ']']

  /** How the user frame at an address of a process is named. */
  type Namer = (nat, nat) -> string

  /** Every frame resolved on its own. */
  function Alone(proc: nat -> Regions, tool: Tool): Namer {
    (tgid: nat, addr: nat) => Direct(proc(tgid), addr, tool)
  }

  /** Every frame looked up in a batch. */
  function InBatch(proc: nat -> Regions, names: Names): Namer {
    (tgid: nat, addr: nat) => Looked(proc(tgid), addr, names)
  }

  function UserNames(addrs: seq<nat>, tgid: nat, name: Namer): (r: seq<string>)
    ensures |r| == |addrs| && forall i :: 0 <= i < |r| ==> r[i] == name(tgid, addrs[i])
  {
    if addrs == [] then [] else UserNames(addrs[..|addrs| - 1], tgid, name) + [name(tgid, addrs[|addrs| - 1])]
  }

  function KernelNames(addrs: seq<nat>, ksym: nat -> string): (r: seq<string>)
    ensures |r| == |addrs| && forall i :: 0 <= i < |r| ==> r[i] == ksym(addrs[i])
  {
    if addrs == [] then [] else KernelNames(addrs[..|addrs| - 1], ksym) + [ksym(addrs[|addrs| - 1])]
  }

  function KernelText(snap: Snapshot, key: Key, ksym: nat -> string): string {
    match StackOf(snap.stacks, key.kern)
    case None => []
    case Some(addrs) => Append([], Reversed(KernelNames(addrs, ksym)))
  }

  /** The folded stack of a key. */
  function TextOf(snap: Snapshot, key: Key, ksym: nat -> string, name: Namer): string {
    var kernel := KernelText(snap, key, ksym);
    var text := match StackOf(snap.stacks, key.user)
                case None => kernel
                case Some(addrs) => Append(kernel, Reversed(UserNames(addrs, key.tgid, name)));
    if text == [] then UNKNOWN else text
  }

  function EntriesOf(snap: Snapshot, n: nat, ksym: nat -> string, name: Namer): (es: seq<Entry>)
    requires n <= |snap.keys| && Complete(snap)
    ensures |es| == n
  {
    if n == 0 then []
    else
      var key := snap.keys[n - 1];
      EntriesOf(snap, n - 1, ksym, name) + [Entry(TextOf(snap, key, ksym, name), snap.counts[key])]
  }

  type UserStacks = map<(nat, int), seq<nat>>

  /** Every site of every mapped user frame is among those asked for. */
  ghost predicate Covered(addrs: seq<nat>, regions: Regions, sites: set<Site>) {
    forall i :: 0 <= i < |addrs| ==>
      var region := RegionOf(regions, addrs[i]);
      region.Some? ==> SiteIn(region.value, addrs[i]) in sites
  }

  ghost predicate KeyCovered(snap: Snapshot, key: Key, proc: nat -> Regions, sites: set<Site>) {
    var stack := StackOf(snap.stacks, key.user);
    stack.Some? ==> Covered(stack.value, proc(key.tgid), sites)
  }

  /** The stack of a key is recorded, and every recorded stack is the stack of its id. */
  ghost predicate KeyRecorded(snap: Snapshot, key: Key, users: UserStacks) {
    StackOf(snap.stacks, key.user).Some? ==> (key.tgid, key.user) in users
  }

  ghost predicate UsersOk(snap: Snapshot, users: UserStacks) {
    forall u :: u in users ==> StackOf(snap.stacks, u.1) == Some(users[u])
  }

  /** Phase 2, one stack: the sites of its mapped frames. */
  method CollectSites(addrs: seq<nat>, regions: Regions, before: seq<Site>) returns (sites: seq<Site>)
    ensures before <= sites && Covered(addrs, regions, Ask(sites))
  {
    hide SiteIn;
    sites := before;
    for i := 0 to |addrs|
      invariant before <= sites && Covered(addrs[..i], regions, Ask(sites))
    {
      var region := RegionOf(regions, addrs[i]);
      if region.Some? { sites := sites + [SiteIn(region.value, addrs[i])]; }
    }
    assert addrs[..|addrs|] == addrs;
  }

  lemma CoveredStays(snap: Snapshot, key: Key, proc: nat -> Regions, sites: seq<Site>, more: seq<Site>)
    requires KeyCovered(snap, key, proc, Ask(sites)) && sites <= more
    ensures KeyCovered(snap, key, proc, Ask(more))
  {
    hide StackOf, RegionOf, SiteIn;
    assert Ask(sites) <= Ask(more);
  }

  /** Phase 2. */
  method Collect(snap: Snapshot, proc: nat -> Regions) returns (users: UserStacks, sites: seq<Site>)
    ensures UsersOk(snap, users)
    ensures forall i :: 0 <= i < |snap.keys| ==> KeyRecorded(snap, snap.keys[i], users)
    ensures forall i :: 0 <= i < |snap.keys| ==> KeyCovered(snap, snap.keys[i], proc, Ask(sites))
  {
    hide Covered, StackOf, Ask;
    users, sites := map[], [];
    for n := 0 to |snap.keys|
      invariant UsersOk(snap, users)
      invariant forall i :: 0 <= i < n ==> KeyRecorded(snap, snap.keys[i], users)
      invariant forall i :: 0 <= i < n ==> KeyCovered(snap, snap.keys[i], proc, Ask(sites))
    {
      var key := snap.keys[n];
      var stack := StackOf(snap.stacks, key.user);
      if stack.Some? {
        ghost var sites0 := sites;
        users := users[(key.tgid, key.user) := stack.value];
        sites := CollectSites(stack.value, proc(key.tgid), sites);
        forall i | 0 <= i < n ensures KeyCovered(snap, snap.keys[i], proc, Ask(sites)) {
          CoveredStays(snap, snap.keys[i], proc, sites0, sites);
        }
      }
    }
  }

  /** The frames of one stack, each looked up in the batch. */
  method FrameNames(addrs: seq<nat>, tgid: nat, proc: nat -> Regions, names: Names) returns (r: seq<string>)
    ensures r == UserNames(addrs, tgid, InBatch(proc, names))
  {
    hide Looked;
    r := [];
    for i := 0 to |addrs|
      invariant r == UserNames(addrs[..i], tgid, InBatch(proc, names))
    {
      assert addrs[..i + 1][..i] == addrs[..i];
      var name := ResolveUserFrame(proc(tgid), addrs[i], names);
      r := r + [name];
    }
    assert addrs[..|addrs|] == addrs;
  }

  /** Phase 3, one key. */
  method FoldKey(snap: Snapshot, key: Key, proc: nat -> Regions, ksym: nat -> string, users: UserStacks, names: Names)
    returns (text: string)
    requires UsersOk(snap, users) && KeyRecorded(snap, key, users)
    ensures text == TextOf(snap, key, ksym, InBatch(proc, names))
  {
    hide StackOf, Append, Reversed, UserNames, KernelNames, InBatch;
    text := KernelText(snap, key, ksym);
    if key.user >= 0 {
      var id := (key.tgid, key.user);
      if id in users {
        var frames := FrameNames(users[id], key.tgid, proc, names);
        text := Append(text, Reversed(frames));
      }
    }
    NoStackBelowZero(snap.stacks, key.user);
    if text == [] { text := UNKNOWN; }
  }

  lemma NoStackBelowZero(stacks: map<int, seq<nat>>, id: int)
    ensures id < 0 ==> StackOf(stacks, id) == None
  {
  }

  /** A batch for a snapshot: it answers what was asked, and every mapped user frame of every key hits it. */
  ghost predicate Batch(names: Names, snap: Snapshot, proc: nat -> Regions, tool: Tool, opens: (string, nat) -> bool) {
    && Answers(names, names.Keys, tool, opens)
    && forall i :: 0 <= i < |snap.keys| ==> KeyCovered(snap, snap.keys[i], proc, names.Keys)
  }

  /** The map is the sum over the keys of their stacks, user frames named by some batch. */
  ghost predicate FoldedBy(folded: Stacks, snap: Snapshot, proc: nat -> Regions, ksym: nat -> string, tool: Tool,
                           opens: (string, nat) -> bool)
    requires Complete(snap)
  {
    exists names :: Batch(names, snap, proc, tool, opens)
                    && folded == AddAll(map[], EntriesOf(snap, |snap.keys|, ksym, InBatch(proc, names)))
  }

  /** Phases 2 and 3. */
  method Fold(snap: Snapshot, proc: nat -> Regions, ksym: nat -> string, tool: Tool, opens: (string, nat) -> bool)
    returns (folded: Stacks)
    requires Complete(snap)
    ensures FoldedBy(folded, snap, proc, ksym, tool, opens)
  {
    hide TextOf, KeyCovered, KeyRecorded, EntriesOf, AddAll, UsersOk, Answers, InBatch, Ask;
    var users, sites := Collect(snap, proc);
    var names := BatchResolve(tool, sites, opens);
    AnswersKeys(names, Ask(sites), tool, opens);
    folded := map[];
    NothingFolded(snap, ksym, InBatch(proc, names));
    for n := 0 to |snap.keys|
      invariant folded == AddAll(map[], EntriesOf(snap, n, ksym, InBatch(proc, names)))
    {
      var key := snap.keys[n];
      var count := snap.counts[key];
      var text := FoldKey(snap, key, proc, ksym, users, names);
      FoldTurn(snap, n, ksym, InBatch(proc, names));
      folded := folded[text := ((if text in folded then folded[text] else 0) + count) % U64];
    }
    assert Batch(names, snap, proc, tool, opens);
  }

  lemma AnswersKeys(names: Names, sites: set<Site>, tool: Tool, opens: (string, nat) -> bool)
    requires Answers(names, sites, tool, opens)
    ensures names.Keys == sites
  {
  }

  lemma NothingFolded(snap: Snapshot, ksym: nat -> string, name: Namer)
    requires Complete(snap)
    ensures AddAll(map[], EntriesOf(snap, 0, ksym, name)) == map[]
  {
  }

  lemma FoldTurn(snap: Snapshot, n: nat, ksym: nat -> string, name: Namer)
    requires n < |snap.keys| && Complete(snap)
    ensures AddAll(map[], EntriesOf(snap, n + 1, ksym, name))
         == Add(AddAll(map[], EntriesOf(snap, n, ksym, name)),
                Entry(TextOf(snap, snap.keys[n], ksym, name), snap.counts[snap.keys[n]]))
  {
    hide TextOf;
    var es := EntriesOf(snap, n + 1, ksym, name);
    assert es[..n] == EntriesOf(snap, n, ksym, name);
  }

  // ----- Batched resolution refines resolution frame by frame -----

  lemma LookedIsDirect(regions: Regions, addr: nat, names: Names, tool: Tool)
    requires RegionOf(regions, addr).Some? ==> SiteIn(RegionOf(regions, addr).value, addr) in names
    requires forall s :: s in names ==> names[s] == NameOf(tool, s)
    ensures Looked(regions, addr, names) == Direct(regions, addr, tool)
  {
    hide NameOf, Fallback;
  }

  lemma SameText(snap: Snapshot, key: Key, proc: nat -> Regions, ksym: nat -> string, names: Names, tool: Tool)
    requires KeyCovered(snap, key, proc, names.Keys) && forall s :: s in names ==> names[s] == NameOf(tool, s)
    ensures TextOf(snap, key, ksym, InBatch(proc, names)) == TextOf(snap, key, ksym, Alone(proc, tool))
  {
    hide StackOf, Append, Reversed, KernelText, Looked, Direct, NameOf, RegionOf;
    var stack := StackOf(snap.stacks, key.user);
    if stack.Some? {
      var addrs := stack.value;
      forall i | 0 <= i < |addrs|
        ensures UserNames(addrs, key.tgid, InBatch(proc, names))[i] == UserNames(addrs, key.tgid, Alone(proc, tool))[i]
      {
        LookedIsDirect(proc(key.tgid), addrs[i], names, tool);
      }
      assert UserNames(addrs, key.tgid, InBatch(proc, names)) == UserNames(addrs, key.tgid, Alone(proc, tool));
    }
  }

  lemma {:induction false} SameEntries(snap: Snapshot, n: nat, proc: nat -> Regions, ksym: nat -> string, names: Names, tool: Tool)
    requires n <= |snap.keys| && Complete(snap)
    requires forall i :: 0 <= i < |snap.keys| ==> KeyCovered(snap, snap.keys[i], proc, names.Keys)
    requires forall s :: s in names ==> names[s] == NameOf(tool, s)
    ensures EntriesOf(snap, n, ksym, InBatch(proc, names)) == EntriesOf(snap, n, ksym, Alone(proc, tool))
  {
    hide TextOf, KeyCovered, NameOf;
    if n > 0 {
      SameEntries(snap, n - 1, proc, ksym, names, tool);
      SameText(snap, snap.keys[n - 1], proc, ksym, names, tool);
    }
  }

  /** If the tool's lines fit the buffer and every pipe opens, the folded map is the one with every frame resolved alone. */
  lemma FoldedIsDirect(folded: Stacks, snap: Snapshot, proc: nat -> Regions, ksym: nat -> string, tool: Tool,
                       opens: (string, nat) -> bool)
    requires Complete(snap) && FoldedBy(folded, snap, proc, ksym, tool, opens) && Fitting(tool) && AllOpen(opens)
    ensures folded == AddAll(map[], EntriesOf(snap, |snap.keys|, ksym, Alone(proc, tool)))
  {
    hide AddAll, EntriesOf, KeyCovered, NameOf, Fallback, AllOpen;
    var names: Names :| Batch(names, snap, proc, tool, opens)
                        && folded == AddAll(map[], EntriesOf(snap, |snap.keys|, ksym, InBatch(proc, names)));
    assert FitsAll(tool, names.Keys);
    SameEntries(snap, |snap.keys|, proc, ksym, names, tool);
  }

  // ----- What a folded stack says -----

  /** The frames of a key, outermost first: kernel stack, then user stack. */
  function FramesOf(snap: Snapshot, key: Key, ksym: nat -> string, name: Namer): seq<string> {
    var kern, user := StackOf(snap.stacks, key.kern), StackOf(snap.stacks, key.user);
    (if kern.Some? then Reversed(KernelNames(kern.value, ksym)) else [])
    + (if user.Some? then Reversed(UserNames(user.value, key.tgid, name)) else [])
  }

  predicate AllNamed(names: seq<string>) {
    forall i :: 0 <= i < |names| ==> names[i] != []
  }

  lemma {:induction false} AppendIsJoin(done: seq<string>, frames: seq<string>)
    requires AllNamed(done) && AllNamed(frames)
    ensures Append(Join(done, ';'), frames) == Join(done + frames, ';')
    decreases |frames|
  {
    hide Join;
    if frames == [] {
      assert done + frames == done;
    } else {
      var next, text := done + [frames[0]], Join(done, ';');
      JoinNamed(done);
      if done == [] {
        JoinOne(frames[0], ';');
        assert next == [frames[0]] && [] + frames[0] == frames[0];
      } else {
        JoinLast(done, frames[0], ';');
      }
      assert (if text == [] then text else text + [';']) + frames[0] == Join(next, ';');
      AppendIsJoin(next, frames[1..]);
      assert next + frames[1..] == done + frames;
    }
  }

  lemma JoinNamed(names: seq<string>)
    requires AllNamed(names)
    ensures Join(names, ';') == [] <==> names == []
  {
  }

  /** The text is the frames with semicolons between them, or "[unknown]" when there are none. */
  lemma TextIsJoin(snap: Snapshot, key: Key, ksym: nat -> string, name: Namer)
    requires (forall a :: ksym(a) != []) && forall t, a :: name(t, a) != []
    ensures var frames := FramesOf(snap, key, ksym, name);
            TextOf(snap, key, ksym, name) == if frames == [] then UNKNOWN else Join(frames, ';')
  {
    hide StackOf, Append, Join;
    var kern, user := StackOf(snap.stacks, key.kern), StackOf(snap.stacks, key.user);
    var outer := if kern.Some? then Reversed(KernelNames(kern.value, ksym)) else [];
    var inner := if user.Some? then Reversed(UserNames(user.value, key.tgid, name)) else [];
    JoinNamed([]);
    AppendIsJoin([], outer);
    AppendIsJoin(outer, inner);
    JoinNamed(outer + inner);
    assert [] + outer == outer && outer + [] == outer;
  }

  /** Frames resolved alone, or looked up in any batch, have names. */
  lemma FramesAreNamed(proc: nat -> Regions, tool: Tool, names: Names, tgid: nat, addr: nat)
    requires forall s :: s in names ==> names[s] != []
    ensures Alone(proc, tool)(tgid, addr) != [] && InBatch(proc, names)(tgid, addr) != []
  {
    hide Chosen, Fallback;
    var region := RegionOf(proc(tgid), addr);
    if region.Some? {
      var site := SiteIn(region.value, addr);
      ChosenIsNamed(tool.name(site), site);
      FallbackIsNamed(site);
    }
  }

  // ----- Nothing lost -----

  function CountSum(es: seq<Entry>): nat {
    if es == [] then 0 else CountSum(es[..|es| - 1]) + es[|es| - 1].count
  }

  function KeySum(snap: Snapshot, n: nat): nat
    requires n <= |snap.keys| && Complete(snap)
  {
    if n == 0 then 0 else KeySum(snap, n - 1) + snap.counts[snap.keys[n - 1]]
  }

  lemma {:induction false} EntriesSum(snap: Snapshot, n: nat, ksym: nat -> string, name: Namer)
    requires n <= |snap.keys| && Complete(snap)
    ensures CountSum(EntriesOf(snap, n, ksym, name)) == KeySum(snap, n)
  {
    hide TextOf;
    if n > 0 {
      EntriesSum(snap, n - 1, ksym, name);
      var es := EntriesOf(snap, n, ksym, name);
      assert es[..n - 1] == EntriesOf(snap, n - 1, ksym, name);
    }
  }

  /** Totals of the listed stacks. */
  function ListedSum(listed: seq<Entry>, es: seq<Entry>): nat {
    if listed == [] then 0 else ListedSum(listed[..|listed| - 1], es) + Total(es, listed[|listed| - 1].stack)
  }

  lemma {:induction false} ListedStep(listed: seq<Entry>, es: seq<Entry>, e: Entry)
    requires forall i, j :: 0 <= i < j < |listed| ==> listed[i].stack != listed[j].stack
    ensures ListedSum(listed, es + [e]) == ListedSum(listed, es) + if Mentions(listed, e.stack) then e.count else 0
  {
    if listed != [] {
      var init, last := listed[..|listed| - 1], listed[|listed| - 1];
      ListedStep(init, es, e);
      MentionsAppend(init, last, e.stack);
      assert listed == init + [last] && (es + [e])[..|es|] == es;
    }
  }

  lemma {:induction false} ListedNothing(listed: seq<Entry>)
    ensures ListedSum(listed, []) == 0
  {
    if listed != [] { ListedNothing(listed[..|listed| - 1]); }
  }

  lemma {:induction false} ListedAll(listed: seq<Entry>, es: seq<Entry>)
    requires forall i, j :: 0 <= i < j < |listed| ==> listed[i].stack != listed[j].stack
    requires forall i :: 0 <= i < |es| ==> Mentions(listed, es[i].stack)
    ensures ListedSum(listed, es) == CountSum(es)
  {
    if es == [] {
      ListedNothing(listed);
    } else {
      var init, last := es[..|es| - 1], es[|es| - 1];
      ListedAll(listed, init);
      ListedStep(listed, init, last);
      assert es == init + [last];
    }
  }

  lemma {:induction false} TotalWithin(es: seq<Entry>, k: string)
    ensures Total(es, k) <= CountSum(es)
  {
    if es != [] { TotalWithin(es[..|es| - 1], k); }
  }

  lemma {:induction false} ListedIsPrinted(listed: seq<Entry>, es: seq<Entry>)
    requires forall i :: 0 <= i < |listed| ==> listed[i].count == Total(es, listed[i].stack)
    ensures CountSum(listed) == ListedSum(listed, es)
  {
    if listed != [] { ListedIsPrinted(listed[..|listed| - 1], es); }
  }

  /** In whatever order the folded map is written, the written counts sum to the counts of the entries added. */
  lemma FoldedSum(es: seq<Entry>, listed: seq<Entry>)
    requires CountSum(es) < U64 && Lists(listed, AddAll(map[], es))
    ensures CountSum(listed) == CountSum(es)
  {
    hide AddAll;
    forall i | 0 <= i < |listed| ensures listed[i].count == Total(es, listed[i].stack) {
      AddAllMeaning(map[], es, listed[i].stack);
      TotalWithin(es, listed[i].stack);
    }
    forall i | 0 <= i < |es| ensures Mentions(listed, es[i].stack) {
      AddAllMeaning(map[], es, es[i].stack);
      assert Mentions(es, es[i].stack);
    }
    ListedIsPrinted(listed, es);
    ListedAll(listed, es);
  }

  /** The output of a poll lists the folded map, and holds every sample of the keys read, whatever the frames are called. */
  method Poll(snap: Snapshot, proc: nat -> Regions, ksym: nat -> string, tool: Tool, opens: (string, nat) -> bool)
    returns (text: string)
    requires Complete(snap)
    ensures exists folded :: FoldedBy(folded, snap, proc, ksym, tool, opens) && Prints(text, folded)
    ensures KeySum(snap, |snap.keys|) < U64 ==>
              exists listed :: text == FileText(listed) && CountSum(listed) == KeySum(snap, |snap.keys|)
  {
    hide AddAll, EntriesOf, FileText, ListsBut, Batch, InBatch;
    var folded := Fold(snap, proc, ksym, tool, opens);
    text := Print(folded);
    ghost var listed :| Lists(listed, folded) && text == FileText(listed);
    ghost var names: Names :| Batch(names, snap, proc, tool, opens)
                              && folded == AddAll(map[], EntriesOf(snap, |snap.keys|, ksym, InBatch(proc, names)));
    EntriesSum(snap, |snap.keys|, ksym, InBatch(proc, names));
    if KeySum(snap, |snap.keys|) < U64 {
      FoldedSum(EntriesOf(snap, |snap.keys|, ksym, InBatch(proc, names)), listed);
    }
  }
}
