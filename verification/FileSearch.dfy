/**
 `FileService.search_files`: a worklist traversal of a directory tree under a
 scan limit, a match limit and a deadline.

 A tree is what `scandir` yields; an entry that cannot be examined is marked.
 The deadline is a number of clock readings that still succeed, so every
 possible moment of expiry is covered. Folding of letter case is left to the
 `matches` predicate on names.
*/
module FileSearches {
  import opened Wrappers

  datatype Entry = Entry(name: string, fails: bool, kind: Kind)

  /** A symbolic link is excluded by its own path or by the one it resolves to. */
  datatype Kind = Regular | Link(intoExcluded: bool) | Directory(children: seq<Entry>)

  /** `noise` decides by name and by being a directory, as `IsNoise` does. */
  datatype Options = Options(matches: string -> bool, includeNoise: bool, noise: (string, bool) -> bool,
                             excluded: set<string>)

  datatype Found = Found(path: string, isDir: bool)

  const NOISE: set<string> := {
    ".git", ".hg", ".svn", ".venv", "venv", "node_modules", "__pycache__", ".pytest_cache", ".ruff_cache",
    ".mypy_cache", ".cache", ".tox", ".termroom-state"}

  const SWAP_SUFFIXES: set<string> := {".swp", ".swo", ".swn", ".swm", ".swl", ".swk"}

  predicate EndsWith(s: string, suffix: string) {
    |s| >= |suffix| && s[|s| - |suffix|..] == suffix
  }

  /** `file_browser_entry_is_noise`. */
  predicate IsNoise(name: string, isDir: bool) {
    || name in NOISE
    || (isDir && "." <= name)
    || (!isDir && "." <= name && exists x :: x in SWAP_SUFFIXES && EndsWith(name, x))
  }

  /** The options of a search request: the noise rule is fixed. */
  function RequestOptions(matches: string -> bool, includeNoise: bool, excluded: set<string>): Options {
    Options(matches, includeNoise, (name, isDir) => IsNoise(name, isDir), excluded)
  }

  function PathOf(directory: string, name: string): string {
    if directory == "." then name else directory + "/" + name
  }

  /** `_file_path_is_excluded`. */
  predicate PathExcluded(path: string, excluded: set<string>) {
    exists x :: x in excluded && (path == x || x + "/" <= path)
  }

  /** `_entry_is_excluded`. */
  predicate Excluded(path: string, e: Entry, o: Options) {
    PathExcluded(path, o.excluded) || (e.kind.Link? && e.kind.intoExcluded)
  }

  /** Entries the search looks at, and those among them it does not skip. */
  predicate Examined(path: string, e: Entry, o: Options) {
    !Excluded(path, e, o) && !e.kind.Link? && !e.fails
  }

  predicate Visible(path: string, e: Entry, o: Options) {
    Examined(path, e, o) && (o.includeNoise || !o.noise(e.name, e.kind.Directory?))
  }

  // ---------------------------------------------------------- specification

  predicate Hits(path: string, e: Entry, o: Options) {
    Visible(path, e, o) && o.matches(e.name)
  }

  predicate Descends(path: string, e: Entry, o: Options) {
    Visible(path, e, o) && e.kind.Directory?
  }

  function HitOf(path: string, e: Entry): Found {
    Found(path, e.kind.Directory?)
  }

  /** Everything a complete search of some entries finds. */
  function FoundIn(directory: string, es: seq<Entry>, o: Options): set<Found>
    decreases es
  {
    if es == [] then {}
    else
      var path := PathOf(directory, es[0].name);
      var kind := es[0].kind;
      (if Hits(path, es[0], o) then {HitOf(path, es[0])} else {})
      + (if Descends(path, es[0], o) then FoundIn(path, kind.children, o) else {})
      + FoundIn(directory, es[1..], o)
  }

  /** What `search_files` counts: matches, examined entries, entries skipped as noise. */
  datatype Weight = Hit | Scan | Noise

  /** One entry itself, without what is below it. */
  function Own(w: Weight, path: string, e: Entry, o: Options): nat {
    match w
    case Hit => if Hits(path, e, o) then 1 else 0
    case Scan => if Excluded(path, e, o) then 0 else 1
    case Noise => if Examined(path, e, o) && !Visible(path, e, o) then 1 else 0
  }

  function CountOf(w: Weight, directory: string, es: seq<Entry>, o: Options): nat
    decreases es
  {
    if es == [] then 0
    else
      var path := PathOf(directory, es[0].name);
      var kind := es[0].kind;
      Own(w, path, es[0], o) + (if Descends(path, es[0], o) then CountOf(w, path, kind.children, o) else 0)
      + CountOf(w, directory, es[1..], o)
  }

  /**
   Entries reachable from a directory: each of the chain is listed in the one
   before it, and all of them are visible directories but the last, which is
   visible.
  */
  predicate IsChain(directory: string, es: seq<Entry>, chain: seq<Entry>, o: Options)
    decreases |chain|
  {
    && chain != [] && chain[0] in es
    && Visible(PathOf(directory, chain[0].name), chain[0], o)
    && (|chain| > 1 ==> chain[0].kind.Directory?
                        && IsChain(PathOf(directory, chain[0].name), chain[0].kind.children, chain[1..], o))
  }

  function ChainPath(directory: string, chain: seq<Entry>): string
    requires chain != []
    decreases |chain|
  {
    var path := PathOf(directory, chain[0].name);
    if |chain| == 1 then path else ChainPath(path, chain[1..])
  }

  function ChainFound(directory: string, chain: seq<Entry>): Found
    requires chain != []
  {
    Found(ChainPath(directory, chain), chain[|chain| - 1].kind.Directory?)
  }

  predicate LeadsTo(directory: string, es: seq<Entry>, o: Options, chain: seq<Entry>, f: Found) {
    IsChain(directory, es, chain, o) && o.matches(chain[|chain| - 1].name) && ChainFound(directory, chain) == f
  }

  /** A search result in terms of chains: a reachable entry whose name matches. */
  ghost predicate Reachable(directory: string, es: seq<Entry>, o: Options, f: Found) {
    exists chain: seq<Entry> :: LeadsTo(directory, es, o, chain, f)
  }

  lemma ChainsOfRest(directory: string, es: seq<Entry>, o: Options, f: Found)
    requires es != [] && Reachable(directory, es[1..], o, f)
    ensures Reachable(directory, es, o, f)
  {
    var chain: seq<Entry> :| LeadsTo(directory, es[1..], o, chain, f);
    assert LeadsTo(directory, es, o, chain, f);
  }

  lemma ChainOfOne(directory: string, e: Entry, es: seq<Entry>, o: Options)
    requires e in es && Visible(PathOf(directory, e.name), e, o) && o.matches(e.name)
    ensures Reachable(directory, es, o, Found(PathOf(directory, e.name), e.kind.Directory?))
  {
    assert LeadsTo(directory, es, o, [e], Found(PathOf(directory, e.name), e.kind.Directory?));
  }

  lemma ChainThrough(directory: string, e: Entry, es: seq<Entry>, o: Options, f: Found)
    requires e in es && Descends(PathOf(directory, e.name), e, o)
    requires Reachable(PathOf(directory, e.name), e.kind.children, o, f)
    ensures Reachable(directory, es, o, f)
  {
    var path := PathOf(directory, e.name);
    var chain: seq<Entry> :| LeadsTo(path, e.kind.children, o, chain, f);
    var longer := [e] + chain;
    assert longer[1..] == chain;
    assert LeadsTo(directory, es, o, longer, f);
  }

  /** Nothing but reachable matching entries is found. */
  lemma {:induction false} FoundIsReachable(directory: string, es: seq<Entry>, o: Options, f: Found)
    requires f in FoundIn(directory, es, o)
    ensures Reachable(directory, es, o, f)
    decreases es
  {
    var e := es[0];
    var path := PathOf(directory, e.name);
    if Hits(path, e, o) && f == HitOf(path, e) {
      ChainOfOne(directory, e, es, o);
    } else if Descends(path, e, o) && f in FoundIn(path, e.kind.children, o) {
      FoundIsReachable(path, e.kind.children, o, f);
      ChainThrough(directory, e, es, o, f);
    } else {
      FoundIsReachable(directory, es[1..], o, f);
      ChainsOfRest(directory, es, o, f);
    }
  }

  lemma {:induction false} FoundHasEach(directory: string, es: seq<Entry>, i: nat, o: Options)
    requires i < |es|
    ensures var path := PathOf(directory, es[i].name);
            && (Hits(path, es[i], o) ==> HitOf(path, es[i]) in FoundIn(directory, es, o))
            && (Descends(path, es[i], o)
                ==> FoundIn(path, es[i].kind.children, o) <= FoundIn(directory, es, o))
  {
    if i > 0 {
      FoundHasEach(directory, es[1..], i - 1, o);
      assert es[1..][i - 1] == es[i];
    }
  }

  /** Every reachable matching entry is found. */
  lemma {:induction false} ReachableIsFound(directory: string, es: seq<Entry>, o: Options, chain: seq<Entry>)
    requires IsChain(directory, es, chain, o) && o.matches(chain[|chain| - 1].name)
    ensures ChainFound(directory, chain) in FoundIn(directory, es, o)
    decreases |chain|
  {
    var i :| 0 <= i < |es| && es[i] == chain[0];
    FoundHasEach(directory, es, i, o);
    if |chain| > 1 {
      var path := PathOf(directory, chain[0].name);
      ReachableIsFound(path, chain[0].kind.children, o, chain[1..]);
      assert ChainFound(directory, chain) == ChainFound(path, chain[1..]);
      assert ChainFound(path, chain[1..]) in FoundIn(path, es[i].kind.children, o);
    }
  }

  lemma FoundIffReachable(directory: string, es: seq<Entry>, o: Options)
    ensures forall f :: f in FoundIn(directory, es, o) <==> Reachable(directory, es, o, f)
  {
    forall f ensures f in FoundIn(directory, es, o) <==> Reachable(directory, es, o, f) {
      if f in FoundIn(directory, es, o) {
        FoundIsReachable(directory, es, o, f);
      }
      if Reachable(directory, es, o, f) {
        var chain: seq<Entry> :| LeadsTo(directory, es, o, chain, f);
        ReachableIsFound(directory, es, o, chain);
      }
    }
  }

  // --------------------------------------------------------------- worklist

  datatype Listing = Listing(path: string, children: seq<Entry>)

  function FoundInAll(pending: seq<Listing>, o: Options): set<Found> {
    if pending == [] then {}
    else
      var last := pending[|pending| - 1];
      FoundInAll(pending[..|pending| - 1], o) + FoundIn(last.path, last.children, o)
  }

  function CountOfAll(w: Weight, pending: seq<Listing>, o: Options): nat {
    if pending == [] then 0
    else
      var last := pending[|pending| - 1];
      CountOfAll(w, pending[..|pending| - 1], o) + CountOf(w, last.path, last.children, o)
  }

  /** The number of entries of a tree, which bounds the traversal. */
  function Size(es: seq<Entry>): nat
    decreases es
  {
    if es == [] then 0
    else
      var kind := es[0].kind;
      1 + (if kind.Directory? then 1 + Size(kind.children) else 0) + Size(es[1..])
  }

  function SizeAll(pending: seq<Listing>): nat {
    if pending == [] then 0 else SizeAll(pending[..|pending| - 1]) + 1 + Size(pending[|pending| - 1].children)
  }

  /** The local variables of `search_files`; `ticks` counts the clock readings. */
  datatype Progress = Progress(pending: seq<Listing>, matches: seq<Found>, scanned: nat, noise: nat, ticks: nat,
                               truncated: bool)

  function Entries(p: Progress): set<Found> {
    set f | f in p.matches
  }

  function Done(w: Weight, p: Progress): nat {
    match w case Hit => |p.matches| case Scan => p.scanned case Noise => p.noise
  }

  /** What a search still has to do: the entries left in the listing being read. */
  datatype Rest = Rest(found: set<Found>, hits: nat, scanned: nat, noise: nat)

  function Left(w: Weight, rest: Rest): nat {
    match w case Hit => rest.hits case Scan => rest.scanned case Noise => rest.noise
  }

  function Nothing(): Rest {
    Rest({}, 0, 0, 0)
  }

  function RestOf(directory: string, es: seq<Entry>, o: Options): Rest {
    Rest(FoundIn(directory, es, o), CountOf(Hit, directory, es, o), CountOf(Scan, directory, es, o),
         CountOf(Noise, directory, es, o))
  }

  function Below(path: string, e: Entry, o: Options): Rest {
    if Descends(path, e, o) then RestOf(path, e.kind.children, o) else Nothing()
  }

  function CountBefore(w: Weight, path: string, e: Entry, o: Options, rest: Rest): nat {
    Own(w, path, e, o) + Left(w, Below(path, e, o)) + Left(w, rest)
  }

  /** The rest that begins with one given entry. */
  function Before(path: string, e: Entry, o: Options, rest: Rest): Rest {
    Rest((if Hits(path, e, o) then {HitOf(path, e)} else {}) + Below(path, e, o).found + rest.found,
         CountBefore(Hit, path, e, o, rest), CountBefore(Scan, path, e, o, rest), CountBefore(Noise, path, e, o, rest))
  }

  /** Recorded plus still to come is the whole, until the search is cut short. */
  ghost predicate FoundAddUp(p: Progress, rest: Rest, whole: Rest, o: Options) {
    && Entries(p) <= whole.found
    && (!p.truncated ==> Entries(p) + FoundInAll(p.pending, o) + rest.found == whole.found)
  }

  predicate CountAddsUp(w: Weight, p: Progress, rest: Rest, whole: Rest, o: Options) {
    && Done(w, p) <= Left(w, whole)
    && (!p.truncated ==> Done(w, p) + CountOfAll(w, p.pending, o) + Left(w, rest) == Left(w, whole))
  }

  ghost predicate AddsUp(p: Progress, rest: Rest, whole: Rest, o: Options) {
    && FoundAddUp(p, rest, whole, o)
    && CountAddsUp(Hit, p, rest, whole, o) && CountAddsUp(Scan, p, rest, whole, o)
    && CountAddsUp(Noise, p, rest, whole, o)
  }

  datatype Limits = Limits(scans: nat, matches: nat, patience: nat)

  predicate Within(p: Progress, l: Limits) {
    && p.scanned <= l.scans && |p.matches| <= l.matches
    && (p.truncated ==> p.scanned == l.scans || |p.matches| == l.matches || p.ticks > l.patience)
    && (!p.truncated ==> p.ticks <= l.patience) && p.scanned <= l.patience && p.scanned <= p.ticks
  }

  /** `scanned >= scan_limit or monotonic() >= deadline`, with the clock read if the first fails. */
  function CheckBudget(p: Progress, l: Limits): Progress {
    if p.scanned >= l.scans then p.(truncated := true)
    else p.(ticks := p.ticks + 1, truncated := p.truncated || p.ticks >= l.patience)
  }

  function Push(p: Progress, path: string, e: Entry): Progress {
    if e.kind.Directory? then p.(pending := p.pending + [Listing(path, e.kind.children)]) else p
  }

  lemma PushAdds(p: Progress, path: string, e: Entry, o: Options)
    requires e.kind.Directory?
    ensures FoundInAll(Push(p, path, e).pending, o) == FoundInAll(p.pending, o) + FoundIn(path, e.kind.children, o)
    ensures SizeAll(Push(p, path, e).pending) == SizeAll(p.pending) + 1 + Size(e.kind.children)
  {
    assert Push(p, path, e).pending[..|p.pending|] == p.pending;
  }

  lemma PushCounts(w: Weight, p: Progress, path: string, e: Entry, o: Options)
    requires e.kind.Directory?
    ensures CountOfAll(w, Push(p, path, e).pending, o)
            == CountOfAll(w, p.pending, o) + CountOf(w, path, e.kind.children, o)
  {
    assert Push(p, path, e).pending[..|p.pending|] == p.pending;
  }

  lemma SizeOfOne(e: Entry)
    ensures Size([e]) == if e.kind.Directory? then 2 + Size(e.kind.children) else 1
  {
    assert [e][1..] == [];
  }

  /** A counted child that is not visible changes nothing but the counts. */
  function Skipped(p: Progress, e: Entry): Progress {
    p.(scanned := p.scanned + 1, noise := p.noise + if e.kind.Link? || e.fails then 0 else 1)
  }

  function Recorded(p: Progress, path: string, e: Entry, o: Options): Progress {
    var q := p.(scanned := p.scanned + 1);
    Push(if o.matches(e.name) then q.(matches := q.matches + [HitOf(path, e)]) else q, path, e)
  }

  lemma RecordedFound(p: Progress, path: string, e: Entry, o: Options, rest: Rest, whole: Rest)
    requires Visible(path, e, o) && !p.truncated && FoundAddUp(p, Before(path, e, o, rest), whole, o)
    ensures FoundAddUp(Recorded(p, path, e, o), rest, whole, o)
  {
    var q := Recorded(p, path, e, o);
    assert q.pending == Push(p, path, e).pending;
    if e.kind.Directory? {
      PushAdds(p, path, e, o);
    }
    assert Entries(q) == Entries(p) + if o.matches(e.name) then {HitOf(path, e)} else {};
  }

  lemma RecordedCount(w: Weight, p: Progress, path: string, e: Entry, o: Options, rest: Rest, whole: Rest)
    requires Visible(path, e, o) && !p.truncated && CountAddsUp(w, p, Before(path, e, o, rest), whole, o)
    ensures CountAddsUp(w, Recorded(p, path, e, o), rest, whole, o)
    ensures Done(w, p) + Own(w, path, e, o) <= Left(w, whole)
  {
    assert Left(w, Before(path, e, o, rest)) == CountBefore(w, path, e, o, rest);
    assert Done(w, Recorded(p, path, e, o)) == Done(w, p) + Own(w, path, e, o);
    if e.kind.Directory? {
      PushCounts(w, p, path, e, o);
      assert Recorded(p, path, e, o).pending == Push(p, path, e).pending;
    }
  }

  lemma RecordedSize(p: Progress, path: string, e: Entry, o: Options)
    ensures SizeAll(Recorded(p, path, e, o).pending) < SizeAll(p.pending) + Size([e])
  {
    SizeOfOne(e);
    if e.kind.Directory? {
      PushAdds(p, path, e, o);
      assert Recorded(p, path, e, o).pending == Push(p, path, e).pending;
    }
  }

  lemma RecordedAddsUp(p: Progress, path: string, e: Entry, o: Options, rest: Rest, whole: Rest)
    requires Visible(path, e, o) && !p.truncated && AddsUp(p, Before(path, e, o, rest), whole, o)
    ensures AddsUp(Recorded(p, path, e, o), rest, whole, o) && p.scanned + 1 <= whole.scanned
    ensures SizeAll(Recorded(p, path, e, o).pending) < SizeAll(p.pending) + Size([e])
  {
    RecordedFound(p, path, e, o, rest, whole);
    RecordedCount(Hit, p, path, e, o, rest, whole);
    RecordedCount(Scan, p, path, e, o, rest, whole);
    RecordedCount(Noise, p, path, e, o, rest, whole);
    RecordedSize(p, path, e, o);
  }

  lemma SkippedAddsUp(p: Progress, path: string, e: Entry, o: Options, rest: Rest, whole: Rest)
    requires !Visible(path, e, o) && !p.truncated && AddsUp(p, Before(path, e, o, rest), whole, o)
    ensures AddsUp(if Excluded(path, e, o) then p else Skipped(p, e), rest, whole, o)
  {
  }

  /** A child that is visible: match it, and queue it if it is a directory. */
  method Record(path: string, e: Entry, p: Progress, o: Options, l: Limits, ghost rest: Rest, ghost whole: Rest)
    returns (q: Progress)
    requires Visible(path, e, o) && Within(p, l) && p.scanned < l.scans && p.scanned < p.ticks && !p.truncated
    requires AddsUp(p, Before(path, e, o, rest), whole, o)
    ensures AddsUp(q, rest, whole, o) && Within(q, l)
    ensures q.ticks == p.ticks && SizeAll(q.pending) < SizeAll(p.pending) + Size([e])
  {
    RecordedAddsUp(p, path, e, o, rest, whole);
    SizeOfOne(e);
    q := p.(scanned := p.scanned + 1);
    if o.matches(e.name) && |q.matches| >= l.matches {
      q := q.(truncated := true);
      assert Entries(q) == Entries(p);
    } else {
      if o.matches(e.name) {
        q := q.(matches := q.matches + [HitOf(path, e)]);
      }
      q := Push(q, path, e);
    }
  }

  lemma BudgetKeepsAddsUp(p: Progress, rest: Rest, whole: Rest, o: Options, l: Limits)
    requires AddsUp(p, rest, whole, o) && Within(p, l) && !p.truncated
    ensures AddsUp(CheckBudget(p, l), rest, whole, o) && Within(CheckBudget(p, l), l)
  {
    assert Entries(CheckBudget(p, l)) == Entries(p);
  }

  /** The body of the inner loop. */
  method VisitChild(path: string, e: Entry, p: Progress, o: Options, l: Limits, ghost rest: Rest, ghost whole: Rest)
    returns (q: Progress)
    requires Within(p, l) && !p.truncated && AddsUp(p, Before(path, e, o, rest), whole, o)
    ensures AddsUp(q, rest, whole, o) && Within(q, l)
    ensures q.ticks + SizeAll(q.pending) <= p.ticks + SizeAll(p.pending) + Size([e])
    ensures SizeAll(q.pending) <= SizeAll(p.pending) + Size([e])
  {
    SizeOfOne(e);
    q := p;
    if Excluded(path, e, o) {
      SkippedAddsUp(p, path, e, o, rest, whole);
    } else {
      BudgetKeepsAddsUp(p, Before(path, e, o, rest), whole, o, l);
      q := CheckBudget(p, l);
      if !q.truncated {
        if Visible(path, e, o) {
          q := Record(path, e, q, o, l, rest, whole);
        } else {
          SkippedAddsUp(q, path, e, o, rest, whole);
          q := Skipped(q, e);
        }
      }
    }
  }

  lemma RestStep(directory: string, es: seq<Entry>, i: nat, o: Options)
    requires i < |es|
    ensures RestOf(directory, es[i..], o)
            == Before(PathOf(directory, es[i].name), es[i], o, RestOf(directory, es[i + 1..], o))
    ensures Size(es[i..]) == Size([es[i]]) + Size(es[i + 1..])
  {
    assert es[i..][1..] == es[i + 1..];
    SizeOfOne(es[i]);
  }

  /** `with os.scandir(directory) as children: ...`. */
  method ScanDirectory(d: Listing, p: Progress, o: Options, l: Limits, ghost whole: Rest) returns (q: Progress)
    requires Within(p, l) && !p.truncated && AddsUp(p, RestOf(d.path, d.children, o), whole, o)
    ensures AddsUp(q, Nothing(), whole, o) && Within(q, l)
    ensures q.ticks + SizeAll(q.pending) <= p.ticks + SizeAll(p.pending) + Size(d.children)
    ensures SizeAll(q.pending) <= SizeAll(p.pending) + Size(d.children)
  {
    q := p;
    var i := 0;
    assert d.children[0..] == d.children;
    while i < |d.children| && !q.truncated
      invariant i <= |d.children| && Within(q, l)
      invariant AddsUp(q, RestOf(d.path, d.children[i..], o), whole, o)
      invariant SizeAll(q.pending) + Size(d.children[i..]) <= SizeAll(p.pending) + Size(d.children)
      invariant (q.ticks + SizeAll(q.pending) + Size(d.children[i..])
                 <= p.ticks + SizeAll(p.pending) + Size(d.children))
    {
      RestStep(d.path, d.children, i, o);
      q := VisitChild(PathOf(d.path, d.children[i].name), d.children[i], q, o, l,
                      RestOf(d.path, d.children[i + 1..], o), whole);
      i := i + 1;
    }
  }

  lemma PopAddsUp(p: Progress, whole: Rest, o: Options)
    requires p.pending != [] && AddsUp(p, Nothing(), whole, o)
    ensures var last := p.pending[|p.pending| - 1];
            && AddsUp(p.(pending := p.pending[..|p.pending| - 1]), RestOf(last.path, last.children, o), whole, o)
            && SizeAll(p.pending) == SizeAll(p.pending[..|p.pending| - 1]) + 1 + Size(last.children)
  {
    assert Entries(p.(pending := p.pending[..|p.pending| - 1])) == Entries(p);
  }

  lemma StartAddsUp(start: Listing, o: Options)
    ensures AddsUp(Progress([start], [], 0, 0, 0, false), Nothing(), RestOf(start.path, start.children, o), o)
    ensures SizeAll([start]) == 1 + Size(start.children)
  {
    assert [start][..0] == [];
  }

  /** The outer loop: empty the worklist or run out of budget. */
  method Traverse(start: Listing, o: Options, l: Limits) returns (p: Progress)
    ensures AddsUp(p, Nothing(), RestOf(start.path, start.children, o), o) && Within(p, l)
    ensures !p.truncated ==> p.pending == []
    ensures p.ticks <= 1 + Size(start.children)
  {
    ghost var whole := RestOf(start.path, start.children, o);
    p := Progress([start], [], 0, 0, 0, false);
    StartAddsUp(start, o);
    while p.pending != [] && !p.truncated
      invariant AddsUp(p, Nothing(), whole, o) && Within(p, l)
      invariant p.ticks <= 1 + Size(start.children)
      invariant !p.truncated ==> p.ticks + SizeAll(p.pending) <= 1 + Size(start.children)
      decreases SizeAll(p.pending), !p.truncated
    {
      BudgetKeepsAddsUp(p, Nothing(), whole, o, l);
      p := CheckBudget(p, l);
      if !p.truncated {
        PopAddsUp(p, whole, o);
        var d := p.pending[|p.pending| - 1];
        p := ScanDirectory(d, p.(pending := p.pending[..|p.pending| - 1]), o, l, whole);
      }
    }
  }

  // ----------------------------------------------------------------- search

  datatype SearchError = BadResultLimit | BadScanLimit | ExcludedStart

  datatype Search = Search(entries: seq<Found>, scanned: nat, skippedNoise: nat, truncated: bool)

  function Min(a: nat, b: nat): nat {
    if a < b then a else b
  }

  /** The reachable matching entries and no others, and the exact counts. */
  ghost predicate Complete(start: Listing, o: Options, r: Search) {
    && (forall f :: f in r.entries <==> Reachable(start.path, start.children, o, f))
    && |r.entries| == CountOf(Hit, start.path, start.children, o)
    && r.scanned == CountOf(Scan, start.path, start.children, o)
    && r.skippedNoise == CountOf(Noise, start.path, start.children, o)
  }

  /**
   What a search that ran promises. Not truncated means complete; truncated or
   not, the result is sound and within its limits, of which one is the time: no
   entry is looked at past the deadline. Truncation has a cause.
  */
  ghost predicate Delivers(start: Listing, o: Options, l: Limits, r: Search) {
    && |r.entries| <= l.matches && r.scanned <= l.scans && r.scanned <= l.patience
    && (forall f :: f in r.entries ==> Reachable(start.path, start.children, o, f))
    && (!r.truncated ==> Complete(start, o, r))
    && (l.patience > Size(start.children) && r.truncated ==> |r.entries| == l.matches || r.scanned == l.scans)
  }

  // ------------------------------------------- the result, without options

  /** Names the file browser hides: tool directories, dot directories and editor swap files. */
  ghost predicate IsHidden(name: string, isDir: bool) {
    || name in {".git", ".hg", ".svn", ".venv", "venv", "node_modules", "__pycache__", ".pytest_cache", ".ruff_cache",
                ".mypy_cache", ".cache", ".tox", ".termroom-state"}
    || (name != "" && name[0] == '.'
        && (isDir || (|name| >= 4 && name[|name| - 4..] in {".swp", ".swo", ".swn", ".swm", ".swl", ".swk"})))
  }

  /** A plain entry outside the excluded paths, and not hidden unless that was asked for. */
  ghost predicate Browsable(path: string, e: Entry, includeNoise: bool, excluded: set<string>) {
    && !e.kind.Link? && !e.fails
    && (forall x :: x in excluded ==> path != x && !(x + "/" <= path))
    && (includeNoise || !IsHidden(e.name, e.kind.Directory?))
  }

  function Inside(directory: string, e: Entry): string {
    if directory == "." then e.name else directory + "/" + e.name
  }

  /** A way down through browsable directories to a browsable entry. */
  ghost predicate IsTrail(directory: string, es: seq<Entry>, trail: seq<Entry>, includeNoise: bool, excluded: set<string>)
    decreases |trail|
  {
    && trail != [] && trail[0] in es && Browsable(Inside(directory, trail[0]), trail[0], includeNoise, excluded)
    && (|trail| == 1
        || (trail[0].kind.Directory?
            && IsTrail(Inside(directory, trail[0]), trail[0].kind.children, trail[1..], includeNoise, excluded)))
  }

  function TrailPath(directory: string, trail: seq<Entry>): string
    decreases |trail|
  {
    if trail == [] then directory else TrailPath(Inside(directory, trail[0]), trail[1..])
  }

  /** The trail leads to this result: the last entry, whose name matches, under its path. */
  ghost predicate TrailFinds(start: Listing, matches: string -> bool, includeNoise: bool, excluded: set<string>,
                             trail: seq<Entry>, f: Found) {
    && IsTrail(start.path, start.children, trail, includeNoise, excluded)
    && matches(trail[|trail| - 1].name)
    && f == Found(TrailPath(start.path, trail), trail[|trail| - 1].kind.Directory?)
  }

  ghost predicate Findable(start: Listing, matches: string -> bool, includeNoise: bool, excluded: set<string>, f: Found) {
    exists trail: seq<Entry> :: TrailFinds(start, matches, includeNoise, excluded, trail, f)
  }

  lemma SwapSuffixIff(name: string)
    ensures (exists x :: x in SWAP_SUFFIXES && EndsWith(name, x))
            <==> |name| >= 4 && name[|name| - 4..] in {".swp", ".swo", ".swn", ".swm", ".swl", ".swk"}
  {
    if x :| x in SWAP_SUFFIXES && EndsWith(name, x) {
      assert |x| == 4 && name[|name| - 4..] == x;
    }
    if |name| >= 4 && name[|name| - 4..] in {".swp", ".swo", ".swn", ".swm", ".swl", ".swk"} {
      var x := name[|name| - 4..];
      assert x in SWAP_SUFFIXES && EndsWith(name, x);
    }
  }

  lemma HiddenIsNoise(name: string, isDir: bool)
    ensures IsHidden(name, isDir) <==> IsNoise(name, isDir)
  {
    SwapSuffixIff(name);
    assert "." <= name <==> name != "" && name[0] == '.';
  }

  lemma BrowsableIsVisible(path: string, e: Entry, matches: string -> bool, includeNoise: bool, excluded: set<string>)
    ensures Browsable(path, e, includeNoise, excluded) <==> Visible(path, e, RequestOptions(matches, includeNoise, excluded))
  {
    HiddenIsNoise(e.name, e.kind.Directory?);
  }

  lemma {:induction false} TrailIsChain(directory: string, es: seq<Entry>, trail: seq<Entry>, matches: string -> bool,
                                        includeNoise: bool, excluded: set<string>)
    ensures IsTrail(directory, es, trail, includeNoise, excluded)
            <==> IsChain(directory, es, trail, RequestOptions(matches, includeNoise, excluded))
    decreases |trail|
  {
    if trail != [] {
      BrowsableIsVisible(Inside(directory, trail[0]), trail[0], matches, includeNoise, excluded);
      if |trail| > 1 && trail[0].kind.Directory? {
        TrailIsChain(Inside(directory, trail[0]), trail[0].kind.children, trail[1..], matches, includeNoise, excluded);
      }
    }
  }

  lemma {:induction false} TrailPathIsChainPath(directory: string, trail: seq<Entry>)
    requires trail != []
    ensures TrailPath(directory, trail) == ChainPath(directory, trail)
    decreases |trail|
  {
    if |trail| > 1 {
      TrailPathIsChainPath(Inside(directory, trail[0]), trail[1..]);
    } else {
      assert trail[1..] == [];
    }
  }

  /** What a search reaches is what a browser of the tree can find. */
  lemma FindableIffReachable(start: Listing, matches: string -> bool, includeNoise: bool, excluded: set<string>, f: Found)
    ensures Findable(start, matches, includeNoise, excluded, f)
            <==> Reachable(start.path, start.children, RequestOptions(matches, includeNoise, excluded), f)
  {
    var o := RequestOptions(matches, includeNoise, excluded);
    forall trail: seq<Entry>
      ensures TrailFinds(start, matches, includeNoise, excluded, trail, f) <==> LeadsTo(start.path, start.children, o, trail, f)
    {
      TrailIsChain(start.path, start.children, trail, matches, includeNoise, excluded);
      if trail != [] {
        TrailPathIsChainPath(start.path, trail);
      }
    }
  }

  /** What a search returns: only findable entries, all of them unless it says it was cut short, and within its limits. */
  ghost predicate Answers(start: Listing, matches: string -> bool, includeNoise: bool, excluded: set<string>, r: Search) {
    && (forall f :: f in r.entries ==> Findable(start, matches, includeNoise, excluded, f))
    && (!r.truncated ==> forall f :: Findable(start, matches, includeNoise, excluded, f) ==> f in r.entries)
  }

  lemma DeliveredAnswers(start: Listing, matches: string -> bool, includeNoise: bool, excluded: set<string>, l: Limits,
                         r: Search)
    requires Delivers(start, RequestOptions(matches, includeNoise, excluded), l, r)
    ensures Answers(start, matches, includeNoise, excluded, r)
  {
    forall f
      ensures Findable(start, matches, includeNoise, excluded, f)
              <==> Reachable(start.path, start.children, RequestOptions(matches, includeNoise, excluded), f)
    {
      FindableIffReachable(start, matches, includeNoise, excluded, f);
    }
  }

  method RunSearch(start: Listing, o: Options, l: Limits) returns (r: Search)
    ensures Delivers(start, o, l, r)
  {
    var p := Traverse(start, o, l);
    FoundIffReachable(start.path, start.children, o);
    assert forall f :: f in p.matches <==> f in Entries(p);
    r := Search(p.matches, p.scanned, p.noise, p.truncated);
  }

  /** `search_files` below a directory, with the noise rule of the file browser. */
  method SearchFiles(start: Listing, blank: bool, matches: string -> bool, includeNoise: bool, excluded: set<string>,
                     maxMatches: int, maxEntries: int, patience: nat)
    returns (r: Result<Search, SearchError>)
    ensures r == Err(BadResultLimit) <==> maxMatches < 1
    ensures r == Err(BadScanLimit) <==> maxMatches >= 1 && maxEntries < 1
    ensures r == Err(ExcludedStart) <==> (maxMatches >= 1 && maxEntries >= 1 && !blank
                                          && PathExcluded(start.path, excluded))
    ensures r.Ok? && blank ==> r.value == Search([], 0, 0, false)
    ensures r.Ok? && !blank ==>
      Delivers(start, RequestOptions(matches, includeNoise, excluded),
               Limits(Min(maxEntries, 100000), Min(maxMatches, 10000), patience), r.value)
    // Without the options of the implementation.
    ensures r == Err(ExcludedStart) ==> exists x :: x in excluded && (start.path == x || x + "/" <= start.path)
    ensures r.Ok? && !blank ==>
      && Answers(start, matches, includeNoise, excluded, r.value)
      && |r.value.entries| <= maxMatches && |r.value.entries| <= 10000
      && r.value.scanned <= maxEntries && r.value.scanned <= 100000 && r.value.scanned <= patience
  {
    if maxMatches < 1 {
      r := Err(BadResultLimit);
    } else if maxEntries < 1 {
      r := Err(BadScanLimit);
    } else if blank {
      r := Ok(Search([], 0, 0, false));
    } else if PathExcluded(start.path, excluded) {
      r := Err(ExcludedStart);
    } else {
      var found := RunSearch(start, RequestOptions(matches, includeNoise, excluded),
                             Limits(Min(maxEntries, 100000), Min(maxMatches, 10000), patience));
      DeliveredAnswers(start, matches, includeNoise, excluded,
                       Limits(Min(maxEntries, 100000), Min(maxMatches, 10000), patience), found);
      r := Ok(found);
    }
  }

  /** Without noise in the request, nothing found is noise, nor reached through a directory that is. */
  lemma {:induction false} NothingFoundIsNoise(directory: string, es: seq<Entry>, matches: string -> bool,
                                               excluded: set<string>, chain: seq<Entry>, k: nat)
    requires IsChain(directory, es, chain, RequestOptions(matches, false, excluded)) && k < |chain|
    ensures !IsNoise(chain[k].name, chain[k].kind.Directory?)
    decreases k
  {
    if k > 0 {
      NothingFoundIsNoise(PathOf(directory, chain[0].name), chain[0].kind.children, matches, excluded, chain[1..], k - 1);
    }
  }
}
